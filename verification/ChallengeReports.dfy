/** Exactly which rules the validators report for which fields. */
module ChallengeReports {
  import opened Wrappers
  import opened Slug
  import Text
  import opened ChallengeRows

  predicate BadTitle(title: string) {
    Text.Utf8Length(title) < 1 || Text.Utf8Length(title) > 200
  }

  predicate Outside(n: Option<int>, low: int, high: int) {
    n.Some? && (n.value < low || n.value > high)
  }

  /** What is reported of a field of a new challenge. */
  predicate CreateReports(reg: Registries, input: CreateInput, slug: string, field: Field, rule: Rule) {
    match field
    case SlugField => rule == SlugPattern && !SpelledOut(slug)
    case TitleField => rule == TitleLength && BadTitle(input.title)
    case CategoryField =>
      rule == KnownCategory && input.category !in {"web", "pwn", "crypto", "rev", "forensics", "misc"}
    case DifficultyField =>
      && rule == KnownDifficulty && input.difficulty.Some?
      && input.difficulty.value !in {"intro", "easy", "medium", "hard", "insane"}
    case KindField => rule == KnownKind && input.kind != "standard" && input.kind != "container"
    case TypeField => rule == RegisteredType && input.typeId !in reg.types
    case FlagField => rule == FlagPresent && input.flag == ""
    case ScoringField => rule == RegisteredMode && input.scoring !in reg.modes
    case PointsInitialField => rule == Positive && input.pointsInitial < 1
    case PointsMinField =>
      && input.scoring == "dynamic"
      && var missing := input.pointsMin.None? || input.pointsMin.value < 1;
         || (rule == PositiveForDynamic && missing)
         || (rule == AtMostInitial && !missing && input.pointsMin.value > input.pointsInitial)
    case DecayField =>
      input.scoring == "dynamic" && rule == PositiveForDynamic && (input.decay.None? || input.decay.value < 1)
    case ImageField =>
      input.kind == "container" && rule == ContainerImage && (input.image.None? || input.image.value == "")
    case InternalPortField =>
      && input.kind == "container" && rule == ContainerPort
      && (input.internalPort.None? || Outside(input.internalPort, 1, 65535))
    case MemLimitField => rule == MemRange && Outside(input.memLimitMb, 16, 8192)
    case CpuField => rule == CpuRange && Outside(input.cpuMillis, 100, 8000)
    case MaxAttemptsField => rule == Positive && input.maxAttempts.Some? && input.maxAttempts.value < 1
    case _ =>
      PlacementReports(input.kind, input.instancing, input.flagMode, input.instanceTtl,
                       input.egress == Some(false), input.writablePaths != [], field, rule)
  }

  /** What is reported of the fields that only containers have a use for. */
  predicate PlacementReports(kind: string, instancing: string, flagMode: string, ttl: Option<int>, noEgress: bool,
                             hasWritable: bool, field: Field, rule: Rule) {
    match field
    case InstancingField =>
      || (rule == KnownInstancing && instancing != "" && instancing != "shared" && instancing != "per_team")
      || (rule == ContainerOnly && kind != "container" && instancing == "per_team")
    case FlagModeField =>
      || (rule == KnownFlagMode && flagMode != "" && flagMode != "static" && flagMode != "per_instance")
      || (rule == ContainerOnly && kind != "container" && flagMode == "per_instance")
    case TtlField =>
      || (rule == NotNegative && ttl.Some? && ttl.value < 0)
      || (rule == ContainerOnly && kind != "container" && ttl.Some?)
    case EgressField => rule == ContainerOnly && kind != "container" && noEgress
    case WritablePathsField => rule == ContainerOnly && kind != "container" && hasWritable
    case _ => false
  }

  /** What is reported of a field of a patch, given the row it was checked against. */
  predicate UpdateReports(reg: Registries, cur: Row, u: UpdateInput, field: Field, rule: Rule) {
    match field
    case SlugField => rule == SlugPattern && u.slug.Some? && !SpelledOut(u.slug.value)
    case TitleField => rule == TitleLength && u.title.Some? && BadTitle(u.title.value)
    case CategoryField =>
      && rule == KnownCategory && u.category.Some?
      && u.category.value !in {"web", "pwn", "crypto", "rev", "forensics", "misc"}
    case DifficultyField =>
      && rule == KnownDifficulty && u.difficulty.Set? && u.difficulty.value.Some?
      && u.difficulty.value.value !in {"intro", "easy", "medium", "hard", "insane"}
    case TypeField => rule == RegisteredType && u.typeId.Some? && u.typeId.value !in reg.types
    case FlagField => rule == FlagPresent && u.flag == Some("")
    case ScoringField => rule == RegisteredMode && u.scoring.Some? && u.scoring.value !in reg.modes
    case PointsInitialField => rule == Positive && u.pointsInitial.Some? && u.pointsInitial.value < 1
    case PointsMinField =>
      && Scoring(cur, u) == "dynamic"
      && var missing := Floor(cur, u).None? || Floor(cur, u).value < 1;
         || (rule == PositiveForDynamic && missing)
         || (rule == AtMostInitial && !missing && Floor(cur, u).value > Points(cur, u))
    case DecayField =>
      Scoring(cur, u) == "dynamic" && rule == PositiveForDynamic && (Decay(cur, u).None? || Decay(cur, u).value < 1)
    case ImageField =>
      && cur.kind == "container" && rule == ContainerImage
      && var image := if u.image.Set? then u.image.value else cur.image;
         image.None? || image.value == ""
    case InternalPortField =>
      && cur.kind == "container" && rule == ContainerPort
      && if u.internalPort.Set? then u.internalPort.value.None? else cur.internalPort.None?
    case MemLimitField => rule == MemRange && Outside(u.memLimitMb, 16, 8192)
    case CpuField => rule == CpuRange && Outside(u.cpuMillis, 100, 8000)
    case _ =>
      PlacementReports(cur.kind, if u.instancing.Some? then u.instancing.value else cur.instancing,
                       if u.flagMode.Some? then u.flagMode.value else cur.flagMode, Ttl(cur, u),
                       (if u.egress.Some? then u.egress.value else cur.egress) == false,
                       u.writablePaths.Some? && u.writablePaths.value != [], field, rule)
  }

  function Scoring(cur: Row, u: UpdateInput): string {
    if u.scoring.Some? then u.scoring.value else cur.scoring
  }

  function Points(cur: Row, u: UpdateInput): int {
    if u.pointsInitial.Some? then u.pointsInitial.value else cur.pointsInitial
  }

  function Floor(cur: Row, u: UpdateInput): Option<int> {
    if u.pointsMin.Set? then u.pointsMin.value else if cur.pointsMin.Some? then Some(cur.pointsMin.value) else None
  }

  function Decay(cur: Row, u: UpdateInput): Option<int> {
    if u.decay.Set? then u.decay.value else if cur.decay.Some? then Some(cur.decay.value) else None
  }

  function Ttl(cur: Row, u: UpdateInput): Option<int> {
    if u.instanceTtl.Set? then u.instanceTtl.value
    else if cur.instanceTtl.Some? then Some(cur.instanceTtl.value) else None
  }

  // ---- the reports, part by part -----------------------------------------------------------

  lemma NotedExactly(r: seq<FieldError>, bad: bool, field: Field, rule: Rule, e: FieldError)
    ensures e in Note(r, bad, field, rule) <==> e in r || (bad && e == FieldError(field, rule))
  {
  }

  lemma LimitsNoted(r: seq<FieldError>, mem: Option<int>, cpu: Option<int>, e: FieldError)
    ensures e in NoteLimits(r, mem, cpu) <==>
            || e in r || (e == FieldError(MemLimitField, MemRange) && Outside(mem, 16, 8192))
            || (e == FieldError(CpuField, CpuRange) && Outside(cpu, 100, 8000))
  {
  }

  lemma DynamicNoted(r: seq<FieldError>, scoring: string, pointsMin: int, pointsInitial: int, decay: int, e: FieldError)
    ensures e in NoteDynamic(r, scoring, pointsMin, pointsInitial, decay) <==>
            || e in r
            || (&& scoring == "dynamic"
                && (|| (e == FieldError(PointsMinField, PositiveForDynamic) && pointsMin < 1)
                    || (e == FieldError(PointsMinField, AtMostInitial) && pointsMin >= 1 && pointsMin > pointsInitial)
                    || (e == FieldError(DecayField, PositiveForDynamic) && decay < 1)))
  {
  }

  lemma ContainerNoted(r: seq<FieldError>, input: CreateInput, e: FieldError)
    ensures e in NoteContainer(r, input) <==>
            || e in r
            || (&& input.kind == "container"
                && (|| (e == FieldError(ImageField, ContainerImage) && (input.image.None? || input.image.value == ""))
                    || (&& e == FieldError(InternalPortField, ContainerPort)
                        && (input.internalPort.None? || Outside(input.internalPort, 1, 65535)))))
  {
  }

  /** One entry of a report and the condition it stands for. */
  datatype Item = Item(bad: bool, field: Field, rule: Rule)

  predicate Says(item: Item, e: FieldError) {
    item.bad && e == FieldError(item.field, item.rule)
  }

  lemma ThreeNoted(r: seq<FieldError>, a: Item, b: Item, c: Item, e: FieldError)
    ensures e in Note(Note(Note(r, a.bad, a.field, a.rule), b.bad, b.field, b.rule), c.bad, c.field, c.rule) <==>
            e in r || Says(a, e) || Says(b, e) || Says(c, e)
  {
    hide Note;
    NotedExactly(r, a.bad, a.field, a.rule, e);
    NotedExactly(Note(r, a.bad, a.field, a.rule), b.bad, b.field, b.rule, e);
    NotedExactly(Note(Note(r, a.bad, a.field, a.rule), b.bad, b.field, b.rule), c.bad, c.field, c.rule, e);
  }

  lemma PlacementNoted(r: seq<FieldError>, kind: string, instancing: string, flagMode: string, ttl: Option<int>,
                       egress: Option<bool>, hasWritable: bool, e: FieldError)
    ensures e in NoteInstancing(r, kind, instancing, flagMode, ttl, egress, hasWritable) <==>
            || e in r
            || PlacementReports(kind, instancing, flagMode, ttl, egress == Some(false), hasWritable, e.field, e.rule)
  {
    hide Note;
    var a := Item(instancing !in {"", "shared", "per_team"}, InstancingField, KnownInstancing);
    var b := Item(flagMode !in {"", "static", "per_instance"}, FlagModeField, KnownFlagMode);
    var c := Item(ttl.Some? && ttl.value < 0, TtlField, NotNegative);
    ThreeNoted(r, a, b, c, e);
    var r3 := Note(Note(Note(r, a.bad, a.field, a.rule), b.bad, b.field, b.rule), c.bad, c.field, c.rule);
    if kind != "container" {
      PlainNoted(r3, instancing, flagMode, ttl, egress, hasWritable, e);
    }
  }

  lemma PlainNoted(r: seq<FieldError>, instancing: string, flagMode: string, ttl: Option<int>, egress: Option<bool>,
                   hasWritable: bool, e: FieldError)
    ensures var r1 := Note(r, instancing == "per_team", InstancingField, ContainerOnly);
            var r2 := Note(r1, flagMode == "per_instance", FlagModeField, ContainerOnly);
            var r3 := Note(r2, ttl.Some?, TtlField, ContainerOnly);
            var r4 := Note(r3, egress == Some(false), EgressField, ContainerOnly);
            e in Note(r4, hasWritable, WritablePathsField, ContainerOnly) <==>
            || e in r
            || (&& e.rule == ContainerOnly
                && (|| (e.field == InstancingField && instancing == "per_team")
                    || (e.field == FlagModeField && flagMode == "per_instance")
                    || (e.field == TtlField && ttl.Some?)
                    || (e.field == EgressField && egress == Some(false))
                    || (e.field == WritablePathsField && hasWritable)))
  {
    hide Note;
    var a := Item(instancing == "per_team", InstancingField, ContainerOnly);
    var b := Item(flagMode == "per_instance", FlagModeField, ContainerOnly);
    var c := Item(ttl.Some?, TtlField, ContainerOnly);
    ThreeNoted(r, a, b, c, e);
    var r3 := Note(Note(Note(r, a.bad, a.field, a.rule), b.bad, b.field, b.rule), c.bad, c.field, c.rule);
    NotedExactly(r3, egress == Some(false), EgressField, ContainerOnly, e);
    var r4 := Note(r3, egress == Some(false), EgressField, ContainerOnly);
    NotedExactly(r4, hasWritable, WritablePathsField, ContainerOnly, e);
  }

  /** The fields NoteTexts speaks of. */
  predicate IsText(field: Field) {
    || field.SlugField? || field.TitleField? || field.CategoryField? || field.DifficultyField? || field.KindField?
    || field.TypeField? || field.FlagField? || field.ScoringField? || field.PointsInitialField?
  }

  /** The nine entries of NoteTexts. */
  function TextItems(reg: Registries, input: CreateInput, slug: string): (items: seq<Item>)
    ensures |items| == 9
  {
    [Item(!IsSlug(slug), SlugField, SlugPattern),
     Item(!(1 <= Text.Utf8Length(input.title) <= 200), TitleField, TitleLength),
     Item(input.category !in CATEGORIES, CategoryField, KnownCategory),
     Item(input.difficulty.Some? && input.difficulty.value !in DIFFICULTIES, DifficultyField, KnownDifficulty),
     Item(input.kind !in {"standard", "container"}, KindField, KnownKind),
     Item(input.typeId !in reg.types, TypeField, RegisteredType),
     Item(input.flag == "", FlagField, FlagPresent),
     Item(input.scoring !in reg.modes, ScoringField, RegisteredMode),
     Item(input.pointsInitial < 1, PointsInitialField, Positive)]
  }

  lemma TextItemsNoted(reg: Registries, input: CreateInput, slug: string, e: FieldError)
    ensures var t := TextItems(reg, input, slug);
            e in NoteTexts([], reg, input, slug) <==>
            || Says(t[0], e) || Says(t[1], e) || Says(t[2], e) || Says(t[3], e) || Says(t[4], e)
            || Says(t[5], e) || Says(t[6], e) || Says(t[7], e) || Says(t[8], e)
  {
    hide Note, IsSlug, Text.Utf8Length, Says;
    var t := TextItems(reg, input, slug);
    ThreeNoted([], t[0], t[1], t[2], e);
    var r3 := Note(Note(Note([], t[0].bad, t[0].field, t[0].rule), t[1].bad, t[1].field, t[1].rule),
                   t[2].bad, t[2].field, t[2].rule);
    ThreeNoted(r3, t[3], t[4], t[5], e);
    var r6 := Note(Note(Note(r3, t[3].bad, t[3].field, t[3].rule), t[4].bad, t[4].field, t[4].rule),
                   t[5].bad, t[5].field, t[5].rule);
    ThreeNoted(r6, t[6], t[7], t[8], e);
  }

  lemma TextsNoted(reg: Registries, input: CreateInput, slug: string, e: FieldError)
    ensures e in NoteTexts([], reg, input, slug) <==>
            IsText(e.field) && CreateReports(reg, input, slug, e.field, e.rule)
  {
    hide NoteTexts, IsSlug, SpelledOut, Text.Utf8Length, PlacementReports;
    SlugsAreSpelledOut(slug);
    TextItemsNoted(reg, input, slug, e);
  }

  lemma PatchTextsNoted(r: seq<FieldError>, reg: Registries, cur: Row, u: UpdateInput, e: FieldError)
    ensures e in NotePatchTexts(r, u) <==>
            || e in r
            || (&& e.field in {SlugField, TitleField, CategoryField, DifficultyField, FlagField}
                && UpdateReports(reg, cur, u, e.field, e.rule))
  {
    hide Note, IsSlug, SpelledOut, Text.Utf8Length, PlacementReports;
    if u.slug.Some? {
      SlugsAreSpelledOut(u.slug.value);
    }
    var slug := u.slug.Some? && !IsSlug(u.slug.value);
    var category := u.category.Some? && u.category.value !in CATEGORIES;
    var difficulty := u.difficulty.Set? && u.difficulty.value.Some? && u.difficulty.value.value !in DIFFICULTIES;
    var title := u.title.Some? && !(1 <= Text.Utf8Length(u.title.value) <= 200);
    var flag := u.flag.Some? && u.flag.value == "";
    var r1 := Note(r, slug, SlugField, SlugPattern);
    var r2 := Note(r1, category, CategoryField, KnownCategory);
    var r3 := Note(r2, difficulty, DifficultyField, KnownDifficulty);
    var r4 := Note(r3, title, TitleField, TitleLength);
    NotedExactly(r, slug, SlugField, SlugPattern, e);
    NotedExactly(r1, category, CategoryField, KnownCategory, e);
    NotedExactly(r2, difficulty, DifficultyField, KnownDifficulty, e);
    NotedExactly(r3, title, TitleField, TitleLength, e);
    NotedExactly(r4, flag, FlagField, FlagPresent, e);
  }

  lemma CostsNoted(reg: Registries, cur: Row, u: UpdateInput, e: FieldError)
    ensures e in NoteCosts([], reg, cur, u) <==>
            && e.field in {TypeField, ScoringField, PointsInitialField, PointsMinField, DecayField}
            && UpdateReports(reg, cur, u, e.field, e.rule)
  {
    hide Note, NoteDynamic, PlacementReports;
    var typeId := u.typeId.Some? && u.typeId.value !in reg.types;
    var mode := u.scoring.Some? && u.scoring.value !in reg.modes;
    var points := u.pointsInitial.Some? && u.pointsInitial.value < 1;
    var r1 := Note([], typeId, TypeField, RegisteredType);
    var r2 := Note(r1, mode, ScoringField, RegisteredMode);
    var r3 := Note(r2, points, PointsInitialField, Positive);
    NotedExactly([], typeId, TypeField, RegisteredType, e);
    NotedExactly(r1, mode, ScoringField, RegisteredMode, e);
    NotedExactly(r2, points, PointsInitialField, Positive, e);
    DynamicNoted(r3, OrElse(u.scoring, cur.scoring), ValOrZero(Changed(u.pointsMin, cur.pointsMin)),
                 OrElse(u.pointsInitial, cur.pointsInitial), ValOrZero(Changed(u.decay, cur.decay)), e);
  }

  lemma KeepsContainerNoted(r: seq<FieldError>, reg: Registries, cur: Row, u: UpdateInput, e: FieldError)
    ensures e in NoteKeepsContainer(r, cur, u) <==>
            e in r || (e.field in {ImageField, InternalPortField} && UpdateReports(reg, cur, u, e.field, e.rule))
  {
    hide PlacementReports;
  }

  // ---- the whole reports -------------------------------------------------------------------

  /** The create validator reports a rule of a field exactly when the input breaks it. */
  lemma CreateReportsExactly(reg: Registries, input: CreateInput, slug: string, e: FieldError)
    ensures e in CreateErrors(reg, input, slug) <==> CreateReports(reg, input, slug, e.field, e.rule)
  {
    hide Note, NoteTexts, NoteDynamic, NoteContainer, NoteLimits, NoteInstancing, PlacementReports;
    hide BadTitle, SpelledOut;
    TextsNoted(reg, input, slug, e);
    var r1 := NoteTexts([], reg, input, slug);
    DynamicNoted(r1, input.scoring, ValOrZero(input.pointsMin), input.pointsInitial, ValOrZero(input.decay), e);
    var r2 := NoteDynamic(r1, input.scoring, ValOrZero(input.pointsMin), input.pointsInitial, ValOrZero(input.decay));
    ContainerNoted(r2, input, e);
    var r3 := NoteContainer(r2, input);
    LimitsNoted(r3, input.memLimitMb, input.cpuMillis, e);
    var r4 := NoteLimits(r3, input.memLimitMb, input.cpuMillis);
    NotedExactly(r4, input.maxAttempts.Some? && input.maxAttempts.value < 1, MaxAttemptsField, Positive, e);
    var r5 := Note(r4, input.maxAttempts.Some? && input.maxAttempts.value < 1, MaxAttemptsField, Positive);
    PlacementNoted(r5, input.kind, input.instancing, input.flagMode, input.instanceTtl, input.egress,
                   input.writablePaths != [], e);
    PlacementFields(input.kind, input.instancing, input.flagMode, input.instanceTtl, input.egress == Some(false),
                    input.writablePaths != [], e.field, e.rule);
  }

  lemma PlacementFields(kind: string, instancing: string, flagMode: string, ttl: Option<int>, noEgress: bool,
                        hasWritable: bool, field: Field, rule: Rule)
    ensures PlacementReports(kind, instancing, flagMode, ttl, noEgress, hasWritable, field, rule) ==>
              field in {InstancingField, FlagModeField, TtlField, EgressField, WritablePathsField}
  {
  }

  /** The update validator reports a rule of a field exactly when the row with the patch breaks it. */
  lemma UpdateReportsExactly(reg: Registries, cur: Row, u: UpdateInput, e: FieldError)
    ensures e in UpdateErrors(reg, cur, u) <==> UpdateReports(reg, cur, u, e.field, e.rule)
  {
    hide NoteCosts, NotePatchTexts, NoteKeepsContainer, NoteLimits, NoteInstancing, PlacementReports;
    hide BadTitle, SpelledOut;
    CostsNoted(reg, cur, u, e);
    var r1 := NoteCosts([], reg, cur, u);
    PatchTextsNoted(r1, reg, cur, u, e);
    var r2 := NotePatchTexts(r1, u);
    KeepsContainerNoted(r2, reg, cur, u, e);
    var r3 := NoteKeepsContainer(r2, cur, u);
    LimitsNoted(r3, u.memLimitMb, u.cpuMillis, e);
    var r4 := NoteLimits(r3, u.memLimitMb, u.cpuMillis);
    var instancing, flagMode := OrElse(u.instancing, cur.instancing), OrElse(u.flagMode, cur.flagMode);
    var ttl: Option<int> := Changed(u.instanceTtl, cur.instanceTtl);
    var egress, writable := Some(OrElse(u.egress, cur.egress)), OrElse(u.writablePaths, []) != [];
    PlacementNoted(r4, cur.kind, instancing, flagMode, ttl, egress, writable, e);
    PlacementFields(cur.kind, instancing, flagMode, ttl, egress == Some(false), writable, e.field, e.rule);
  }
}
