/**
 A stored challenge, the inputs that create and change it, what the validators say of them, the row they lead
 to, and the CHECK constraints of the table. Columns nothing constrains are not modelled.
 */
module ChallengeRows {
  import opened Wrappers
  import opened Text
  import opened Slug

  // ---- 32-bit columns ----------------------------------------------------------------------

  const MAX_I32 := 0x7FFF_FFFF
  const MIN_I32 := -0x8000_0000

  type int32 = n: int | MIN_I32 <= n <= MAX_I32

  /** Saturates an int into a 32-bit column. */
  function ClampI32(v: int): int32 {
    if v > MAX_I32 then MAX_I32 else if v < MIN_I32 then MIN_I32 else v
  }

  function I32p(p: Option<int>): Option<int32> {
    if p.None? then None else Some(ClampI32(p.value))
  }

  function ValOrZero(p: Option<int>): int {
    if p.None? then 0 else p.value
  }

  // ---- rows and inputs ---------------------------------------------------------------------

  const CATEGORIES := {"web", "pwn", "crypto", "rev", "forensics", "misc"}
  const DIFFICULTIES := {"intro", "easy", "medium", "hard", "insane"}

  datatype Row = Row(
    slug: string, title: string, category: string, difficulty: Option<string>, kind: string, typeId: string,
    flag: string, scoring: string, pointsInitial: int32, pointsMin: Option<int32>, decay: Option<int32>,
    maxAttempts: Option<int32>, image: Option<string>, internalPort: Option<int32>, memLimitMb: int32, cpuMillis: int32,
    instancing: string, flagMode: string, instanceTtl: Option<int32>, egress: bool, writablePaths: seq<string>)

  datatype CreateInput = CreateInput(
    slug: Option<string>, title: string, category: string, difficulty: Option<string>, kind: string, typeId: string,
    flag: string, scoring: string, pointsInitial: int, pointsMin: Option<int>, decay: Option<int>,
    maxAttempts: Option<int>, image: Option<string>, internalPort: Option<int>, memLimitMb: Option<int>,
    cpuMillis: Option<int>,
    instancing: string, flagMode: string, instanceTtl: Option<int>, egress: Option<bool>, writablePaths: seq<string>)

  /** A column of a patch that can be set to null: left alone, or set. */
  datatype Change<T> = Keep | Set(value: Option<T>)

  datatype UpdateInput = UpdateInput(
    slug: Option<string>, title: Option<string>, category: Option<string>, difficulty: Change<string>,
    typeId: Option<string>,
    flag: Option<string>, scoring: Option<string>, pointsInitial: Option<int>, pointsMin: Change<int>,
    decay: Change<int>,
    maxAttempts: Change<int>, image: Change<string>, internalPort: Change<int>, memLimitMb: Option<int>,
    cpuMillis: Option<int>,
    instancing: Option<string>, flagMode: Option<string>, instanceTtl: Change<int>, egress: Option<bool>,
    writablePaths: Option<seq<string>>)

  const UNCHANGED := UpdateInput(
    None, None, None, Keep, None, None, None, None, Keep, Keep, Keep, Keep, Keep, None, None, None, None, Keep,
    None, None)

  /** The challenge types and scoring modes registered at the moment of a write. */
  datatype Registries = Registries(types: set<string>, modes: set<string>)

  function OrElse<T>(p: Option<T>, otherwise: T): T {
    if p.Some? then p.value else otherwise
  }

  function Changed<T>(c: Change<T>, current: Option<T>): Option<T> {
    if c.Set? then c.value else current
  }

  function Stored(c: Change<int>): Change<int32> {
    if c.Set? then Set(I32p(c.value)) else Keep
  }

  function DefaultTo(s: string, d: string): string {
    if s == "" then d else s
  }

  function WithDefaults(input: CreateInput): CreateInput {
    input.(kind := DefaultTo(input.kind, "standard"), typeId := DefaultTo(input.typeId, "standard"),
           scoring := DefaultTo(input.scoring, "dynamic"),
           instancing := DefaultTo(input.instancing, "shared"), flagMode := DefaultTo(input.flagMode, "static"))
  }

  function SlugOf(input: CreateInput): string {
    OrElse(input.slug, Slugify(input.title))
  }

  /** The row an accepted input is stored as. */
  function NewRow(input: CreateInput, slug: string): Row {
    Row(slug, input.title, input.category, input.difficulty, input.kind, input.typeId,
        input.flag, input.scoring, ClampI32(input.pointsInitial), I32p(input.pointsMin), I32p(input.decay),
        I32p(input.maxAttempts), input.image, I32p(input.internalPort),
        ClampI32(OrElse(input.memLimitMb, 256)), ClampI32(OrElse(input.cpuMillis, 500)),
        input.instancing, input.flagMode, I32p(input.instanceTtl), OrElse(input.egress, true), input.writablePaths)
  }

  /** The row after the patch: what it leaves out stays as it is in the row at that moment. */
  function Merged(row: Row, u: UpdateInput): Row {
    Row(OrElse(u.slug, row.slug), OrElse(u.title, row.title), OrElse(u.category, row.category),
        Changed(u.difficulty, row.difficulty), row.kind, OrElse(u.typeId, row.typeId),
        OrElse(u.flag, row.flag), OrElse(u.scoring, row.scoring), OrElse(I32p(u.pointsInitial), row.pointsInitial),
        Changed(Stored(u.pointsMin), row.pointsMin), Changed(Stored(u.decay), row.decay),
        Changed(Stored(u.maxAttempts), row.maxAttempts), Changed(u.image, row.image),
        Changed(Stored(u.internalPort), row.internalPort),
        OrElse(I32p(u.memLimitMb), row.memLimitMb), OrElse(I32p(u.cpuMillis), row.cpuMillis),
        OrElse(u.instancing, row.instancing), OrElse(u.flagMode, row.flagMode),
        Changed(Stored(u.instanceTtl), row.instanceTtl), OrElse(u.egress, row.egress),
        OrElse(u.writablePaths, row.writablePaths))
  }

  // ---- what the validators report ----------------------------------------------------------

  datatype Field =
    | SlugField | TitleField | CategoryField | DifficultyField | KindField | TypeField
    | FlagField | ScoringField | PointsInitialField | PointsMinField | DecayField | ImageField
    | InternalPortField | MemLimitField | CpuField | MaxAttemptsField | InstancingField | FlagModeField
    | TtlField | EgressField | WritablePathsField

  /** The rule a message says was broken. */
  datatype Rule =
    | SlugPattern | TitleLength | KnownCategory | KnownDifficulty | KnownKind | RegisteredType
    | FlagPresent | RegisteredMode | Positive | PositiveForDynamic | AtMostInitial | ContainerImage
    | ContainerPort | MemRange | CpuRange | KnownInstancing | KnownFlagMode | NotNegative
    | ContainerOnly

  datatype FieldError = FieldError(field: Field, rule: Rule)

  /** A report with one more entry when a condition is violated. */
  function Note(report: seq<FieldError>, bad: bool, field: Field, rule: Rule): seq<FieldError> {
    if bad then report + [FieldError(field, rule)] else report
  }

  predicate HasImage(image: Option<string>) {
    image.Some? && image.value != ""
  }

  function NoteLimits(r: seq<FieldError>, mem: Option<int>, cpu: Option<int>): seq<FieldError> {
    var r := Note(r, mem.Some? && !(16 <= mem.value <= 8192), MemLimitField, MemRange);
    Note(r, cpu.Some? && !(100 <= cpu.value <= 8000), CpuField, CpuRange)
  }

  function NoteInstancing(r: seq<FieldError>, kind: string, instancing: string, flagMode: string, ttl: Option<int>,
                          egress: Option<bool>, hasWritable: bool): seq<FieldError> {
    var r := Note(r, instancing !in {"", "shared", "per_team"}, InstancingField, KnownInstancing);
    var r := Note(r, flagMode !in {"", "static", "per_instance"}, FlagModeField, KnownFlagMode);
    var r := Note(r, ttl.Some? && ttl.value < 0, TtlField, NotNegative);
    if kind == "container" then r
    else
      var r := Note(r, instancing == "per_team", InstancingField, ContainerOnly);
      var r := Note(r, flagMode == "per_instance", FlagModeField, ContainerOnly);
      var r := Note(r, ttl.Some?, TtlField, ContainerOnly);
      var r := Note(r, egress == Some(false), EgressField, ContainerOnly);
      Note(r, hasWritable, WritablePathsField, ContainerOnly)
  }

  function NoteDynamic(r: seq<FieldError>, scoring: string, pointsMin: int, pointsInitial: int,
                       decay: int): seq<FieldError> {
    if scoring != "dynamic" then r
    else
      var r := if pointsMin < 1 then Note(r, true, PointsMinField, PositiveForDynamic)
               else Note(r, pointsMin > pointsInitial, PointsMinField, AtMostInitial);
      Note(r, decay < 1, DecayField, PositiveForDynamic)
  }

  function NoteContainer(r: seq<FieldError>, input: CreateInput): seq<FieldError> {
    if input.kind != "container" then r
    else
      var r := Note(r, !HasImage(input.image), ImageField, ContainerImage);
      Note(r, input.internalPort.None? || !(1 <= input.internalPort.value <= 65535), InternalPortField, ContainerPort)
  }

  function NoteTexts(r: seq<FieldError>, reg: Registries, input: CreateInput, slug: string): seq<FieldError> {
    var r := Note(r, !IsSlug(slug), SlugField, SlugPattern);
    var r := Note(r, !(1 <= Utf8Length(input.title) <= 200), TitleField, TitleLength);
    var r := Note(r, input.category !in CATEGORIES, CategoryField, KnownCategory);
    var r := Note(r, input.difficulty.Some? && input.difficulty.value !in DIFFICULTIES,
                  DifficultyField, KnownDifficulty);
    var r := Note(r, input.kind !in {"standard", "container"}, KindField, KnownKind);
    var r := Note(r, input.typeId !in reg.types, TypeField, RegisteredType);
    var r := Note(r, input.flag == "", FlagField, FlagPresent);
    var r := Note(r, input.scoring !in reg.modes, ScoringField, RegisteredMode);
    Note(r, input.pointsInitial < 1, PointsInitialField, Positive)
  }

  function CreateErrors(reg: Registries, input: CreateInput, slug: string): seq<FieldError> {
    var r := NoteTexts([], reg, input, slug);
    var r := NoteDynamic(r, input.scoring, ValOrZero(input.pointsMin), input.pointsInitial, ValOrZero(input.decay));
    var r := NoteContainer(r, input);
    var r := NoteLimits(r, input.memLimitMb, input.cpuMillis);
    var r := Note(r, input.maxAttempts.Some? && input.maxAttempts.value < 1, MaxAttemptsField, Positive);
    NoteInstancing(r, input.kind, input.instancing, input.flagMode, input.instanceTtl, input.egress,
                   input.writablePaths != [])
  }

  function NoteCosts(r: seq<FieldError>, reg: Registries, cur: Row, u: UpdateInput): seq<FieldError> {
    var r := Note(r, u.typeId.Some? && u.typeId.value !in reg.types, TypeField, RegisteredType);
    var r := Note(r, u.scoring.Some? && u.scoring.value !in reg.modes, ScoringField, RegisteredMode);
    var r := Note(r, u.pointsInitial.Some? && u.pointsInitial.value < 1, PointsInitialField, Positive);
    NoteDynamic(r, OrElse(u.scoring, cur.scoring), ValOrZero(Changed(u.pointsMin, cur.pointsMin)),
                OrElse(u.pointsInitial, cur.pointsInitial), ValOrZero(Changed(u.decay, cur.decay)))
  }

  function NotePatchTexts(r: seq<FieldError>, u: UpdateInput): seq<FieldError> {
    var r := Note(r, u.slug.Some? && !IsSlug(u.slug.value), SlugField, SlugPattern);
    var r := Note(r, u.category.Some? && u.category.value !in CATEGORIES, CategoryField, KnownCategory);
    var r := Note(r, u.difficulty.Set? && u.difficulty.value.Some? && u.difficulty.value.value !in DIFFICULTIES,
                  DifficultyField, KnownDifficulty);
    var r := Note(r, u.title.Some? && !(1 <= Utf8Length(u.title.value) <= 200), TitleField, TitleLength);
    Note(r, u.flag.Some? && u.flag.value == "", FlagField, FlagPresent)
  }

  function NoteKeepsContainer(r: seq<FieldError>, cur: Row, u: UpdateInput): seq<FieldError> {
    if cur.kind != "container" then r
    else
      var r := Note(r, !HasImage(Changed(u.image, cur.image)), ImageField, ContainerImage);
      Note(r, Changed(Stored(u.internalPort), cur.internalPort).None?, InternalPortField, ContainerPort)
  }

  function UpdateErrors(reg: Registries, cur: Row, u: UpdateInput): seq<FieldError> {
    var r := NoteCosts([], reg, cur, u);
    var r := NotePatchTexts(r, u);
    var r := NoteKeepsContainer(r, cur, u);
    var r := NoteLimits(r, u.memLimitMb, u.cpuMillis);
    NoteInstancing(r, cur.kind, OrElse(u.instancing, cur.instancing), OrElse(u.flagMode, cur.flagMode),
                   Changed(u.instanceTtl, cur.instanceTtl), Some(OrElse(u.egress, cur.egress)),
                   OrElse(u.writablePaths, []) != [])
  }

  // ---- what the validators accept ----------------------------------------------------------

  predicate LimitsOk(mem: Option<int>, cpu: Option<int>) {
    (mem.Some? ==> 16 <= mem.value <= 8192) && (cpu.Some? ==> 100 <= cpu.value <= 8000)
  }

  predicate InstancingOk(kind: string, instancing: string, flagMode: string, ttl: Option<int>, egress: Option<bool>,
                         hasWritable: bool) {
    && instancing in {"", "shared", "per_team"} && flagMode in {"", "static", "per_instance"}
        && (ttl.Some? ==> 0 <= ttl.value)
    && (kind != "container"
        ==> instancing != "per_team" && flagMode != "per_instance" && ttl.None? && egress != Some(false)
            && !hasWritable)
  }

  predicate ScoringOk(scoring: string, pointsMin: int, pointsInitial: int, decay: int) {
    scoring == "dynamic" ==> 1 <= pointsMin <= pointsInitial && 1 <= decay
  }

  predicate TitleOk(title: string) {
    1 <= Utf8Length(title) <= 200
  }

  predicate CreateOk(reg: Registries, input: CreateInput, slug: string) {
    && IsSlug(slug) && TitleOk(input.title) && input.category in CATEGORIES
    && (input.difficulty.Some? ==> input.difficulty.value in DIFFICULTIES)
    && input.kind in {"standard", "container"} && input.typeId in reg.types && input.flag != ""
        && input.scoring in reg.modes
    && 1 <= input.pointsInitial
    && ScoringOk(input.scoring, ValOrZero(input.pointsMin), input.pointsInitial, ValOrZero(input.decay))
    && (input.kind == "container" ==>
          && HasImage(input.image)
          && input.internalPort.Some? && 1 <= input.internalPort.value <= 65535)
    && LimitsOk(input.memLimitMb, input.cpuMillis)
    && (input.maxAttempts.Some? ==> 1 <= input.maxAttempts.value)
    && InstancingOk(input.kind, input.instancing, input.flagMode, input.instanceTtl, input.egress,
                    input.writablePaths != [])
  }

  predicate UpdateOk(reg: Registries, cur: Row, u: UpdateInput) {
    && (u.typeId.Some? ==> u.typeId.value in reg.types) && (u.scoring.Some? ==> u.scoring.value in reg.modes)
    && (u.pointsInitial.Some? ==> 1 <= u.pointsInitial.value)
    && ScoringOk(OrElse(u.scoring, cur.scoring), ValOrZero(Changed(u.pointsMin, cur.pointsMin)),
                 OrElse(u.pointsInitial, cur.pointsInitial), ValOrZero(Changed(u.decay, cur.decay)))
    && (u.slug.Some? ==> IsSlug(u.slug.value)) && (u.category.Some? ==> u.category.value in CATEGORIES)
    && (u.difficulty.Set? && u.difficulty.value.Some? ==> u.difficulty.value.value in DIFFICULTIES)
    && (u.title.Some? ==> TitleOk(u.title.value)) && (u.flag.Some? ==> u.flag.value != "")
    && (cur.kind == "container" ==>
          && HasImage(Changed(u.image, cur.image))
          && Changed(Stored(u.internalPort), cur.internalPort).Some?)
    && LimitsOk(u.memLimitMb, u.cpuMillis)
    && InstancingOk(cur.kind, OrElse(u.instancing, cur.instancing), OrElse(u.flagMode, cur.flagMode),
                    Changed(u.instanceTtl, cur.instanceTtl), Some(OrElse(u.egress, cur.egress)),
                    OrElse(u.writablePaths, []) != [])
  }

  lemma InstancingAccepts(r: seq<FieldError>, kind: string, instancing: string, flagMode: string, ttl: Option<int>,
                          egress: Option<bool>, hasWritable: bool)
    ensures NoteInstancing(r, kind, instancing, flagMode, ttl, egress, hasWritable) == []
       <==> r == [] && InstancingOk(kind, instancing, flagMode, ttl, egress, hasWritable)
  {
  }

  lemma TextsAccept(r: seq<FieldError>, reg: Registries, input: CreateInput, slug: string)
    ensures NoteTexts(r, reg, input, slug) == []
       <==> && r == [] && IsSlug(slug) && TitleOk(input.title) && input.category in CATEGORIES
            && (input.difficulty.Some? ==> input.difficulty.value in DIFFICULTIES)
            && input.kind in {"standard", "container"} && input.typeId in reg.types && input.flag != ""
                && input.scoring in reg.modes
            && 1 <= input.pointsInitial
  {
    hide IsSlug, Utf8Length;
  }

  lemma PatchTextsAccept(r: seq<FieldError>, u: UpdateInput)
    ensures NotePatchTexts(r, u) == []
       <==> && r == [] && (u.slug.Some? ==> IsSlug(u.slug.value))
            && (u.category.Some? ==> u.category.value in CATEGORIES)
            && (u.difficulty.Set? && u.difficulty.value.Some? ==> u.difficulty.value.value in DIFFICULTIES)
            && (u.title.Some? ==> TitleOk(u.title.value)) && (u.flag.Some? ==> u.flag.value != "")
  {
    hide IsSlug, Utf8Length;
  }

  /** The create validator reports nothing exactly when every condition holds. */
  lemma CreateAccepts(reg: Registries, input: CreateInput, slug: string)
    ensures CreateErrors(reg, input, slug) == [] <==> CreateOk(reg, input, slug)
  {
    hide IsSlug, Utf8Length, TitleOk, NoteInstancing, InstancingOk, NoteTexts;
    TextsAccept([], reg, input, slug);
    var r := NoteTexts([], reg, input, slug);
    var r1 := NoteDynamic(r, input.scoring, ValOrZero(input.pointsMin), input.pointsInitial, ValOrZero(input.decay));
    var r2 := NoteLimits(NoteContainer(r1, input), input.memLimitMb, input.cpuMillis);
    var r3 := Note(r2, input.maxAttempts.Some? && input.maxAttempts.value < 1, MaxAttemptsField, Positive);
    InstancingAccepts(r3, input.kind, input.instancing, input.flagMode, input.instanceTtl, input.egress,
                      input.writablePaths != []);
  }

  /** And so does the update validator. */
  lemma UpdateAccepts(reg: Registries, cur: Row, u: UpdateInput)
    ensures UpdateErrors(reg, cur, u) == [] <==> UpdateOk(reg, cur, u)
  {
    hide IsSlug, Utf8Length, TitleOk, NoteInstancing, InstancingOk, NotePatchTexts;
    var r := NoteCosts([], reg, cur, u);
    PatchTextsAccept(r, u);
    var r1 := NoteLimits(NoteKeepsContainer(NotePatchTexts(r, u), cur, u), u.memLimitMb, u.cpuMillis);
    InstancingAccepts(r1, cur.kind, OrElse(u.instancing, cur.instancing), OrElse(u.flagMode, cur.flagMode),
                      Changed(u.instanceTtl, cur.instanceTtl), Some(OrElse(u.egress, cur.egress)),
                      OrElse(u.writablePaths, []) != []);
  }

  // ---- what is promised of a row -----------------------------------------------------------

  predicate DynamicOk(row: Row) {
    row.scoring == "dynamic" ==>
      && row.pointsMin.Some? && 1 <= row.pointsMin.value <= row.pointsInitial
      && row.decay.Some? && 1 <= row.decay.value
  }

  predicate PlainOk(row: Row) {
    row.kind != "container" ==>
      row.instancing == "shared" && row.flagMode == "static" && row.instanceTtl.None? && row.egress
          && row.writablePaths == []
  }

  /** The CHECK constraints of the challenges table. */
  predicate DbChecks(row: Row) {
    && row.category in {"web", "pwn", "crypto", "rev", "forensics", "misc"}
    && (row.difficulty.Some? ==> row.difficulty.value in {"intro", "easy", "medium", "hard", "insane"})
    && row.kind in {"standard", "container"}
    && 0 < row.pointsInitial && (row.maxAttempts.Some? ==> 0 < row.maxAttempts.value)
    && (row.internalPort.Some? ==> 1 <= row.internalPort.value <= 65535)
    && 16 <= row.memLimitMb <= 8192 && 100 <= row.cpuMillis <= 8000
    && DynamicOk(row)
    && (row.kind == "container" ==> row.image.Some? && row.internalPort.Some?)
    && row.instancing in {"shared", "per_team"} && row.flagMode in {"static", "per_instance"}
    && (row.instanceTtl.Some? ==> 0 <= row.instanceTtl.value)
    && PlainOk(row)
  }

  predicate TextsOk(row: Row) {
    && IsSlug(row.slug) && row.flag != "" && TitleOk(row.title)
    && row.category in CATEGORIES && (row.difficulty.Some? ==> row.difficulty.value in DIFFICULTIES)
  }

  predicate NumbersOk(row: Row) {
    && 1 <= row.pointsInitial && DynamicOk(row)
    && 16 <= row.memLimitMb <= 8192 && 100 <= row.cpuMillis <= 8000
  }

  /** An update may store an empty instancing or flag mode, so of a row that is no container this says only
      that neither is a container's. */
  predicate PlacementOk(row: Row) {
    && row.kind in {"standard", "container"}
    && row.instancing in {"", "shared", "per_team"} && row.flagMode in {"", "static", "per_instance"}
    && (row.instanceTtl.Some? ==> 0 <= row.instanceTtl.value)
    && if row.kind == "container" then HasImage(row.image) && row.internalPort.Some?
       else
         && row.instancing != "per_team" && row.flagMode != "per_instance"
         && row.instanceTtl.None? && row.egress && row.writablePaths == []
  }

  /** What the validators alone promise of every row. */
  predicate RowOk(row: Row) {
    TextsOk(row) && NumbersOk(row) && PlacementOk(row)
  }

  /** Saturation keeps order, changes nothing that fits and nothing twice. */
  lemma ClampKeepsOrder(a: int, b: int)
    ensures a <= b ==> ClampI32(a) <= ClampI32(b)
    ensures MIN_I32 <= a <= MAX_I32 <==> ClampI32(a) == a
    ensures ClampI32(ClampI32(a)) == ClampI32(a)
  {
  }

  /** An input the validator accepts is stored as a row that keeps every promise, although the checks were
      made on unbounded numbers and the columns hold 32 bits. */
  lemma CreateKeepsPromises(reg: Registries, input: CreateInput)
    requires CreateErrors(reg, WithDefaults(input), SlugOf(input)) == []
    ensures RowOk(NewRow(WithDefaults(input), SlugOf(input)))
  {
    hide CreateErrors, IsSlug, TitleOk, SlugOf;
    CreateAccepts(reg, WithDefaults(input), SlugOf(input));
  }

  /** It does not mirror the table's CHECK constraints: an accepted input meets them exactly when it is a
      container or names no port or names one in range. */
  lemma CreateMeetsChecksExactly(reg: Registries, input: CreateInput)
    requires CreateErrors(reg, WithDefaults(input), SlugOf(input)) == []
    ensures DbChecks(NewRow(WithDefaults(input), SlugOf(input)))
       <==> || WithDefaults(input).kind == "container" || input.internalPort.None?
            || 1 <= input.internalPort.value <= 65535
  {
    hide CreateErrors, IsSlug, TitleOk, SlugOf;
    CreateAccepts(reg, WithDefaults(input), SlugOf(input));
  }

  /** A patch accepted against the row it is applied to keeps every promise, whichever side of a comparison
      came from the patch and whichever from the stored row. */
  lemma UpdateKeepsPromises(reg: Registries, row: Row, u: UpdateInput)
    requires RowOk(row) && UpdateErrors(reg, row, u) == []
    ensures RowOk(Merged(row, u)) && Merged(row, u).kind == row.kind
  {
    hide UpdateErrors, IsSlug, TitleOk;
    UpdateAccepts(reg, row, u);
    assert TextsOk(Merged(row, u));
    assert NumbersOk(Merged(row, u));
    assert PlacementOk(Merged(row, u));
  }

  predicate PatchInRange(u: UpdateInput) {
    && (u.maxAttempts.Set? && u.maxAttempts.value.Some? ==> 1 <= u.maxAttempts.value.value)
    && (u.internalPort.Set? && u.internalPort.value.Some? ==> 1 <= u.internalPort.value.value <= 65535)
    && u.instancing != Some("") && u.flagMode != Some("")
  }

  /** Nor does the update validator mirror them: an accepted patch of a row that meets them leads to one that
      does exactly when it sets no attempt limit below one, no port out of range, and neither the instancing
      nor the flag mode to the empty string. */
  lemma UpdateMeetsChecksExactly(reg: Registries, row: Row, u: UpdateInput)
    requires DbChecks(row) && UpdateErrors(reg, row, u) == []
    ensures DbChecks(Merged(row, u)) <==> PatchInRange(u)
  {
    hide UpdateErrors, IsSlug, TitleOk;
    UpdateAccepts(reg, row, u);
  }

  // ---- inputs that show the difference -----------------------------------------------------

  /** A small challenge that is no container, scored from two points down to one. */
  function Sample(scoring: string, port: Option<int>): CreateInput {
    CreateInput(Some("a"), "a", "web", None, "standard", "standard", "f", scoring, 2, Some(1), Some(1),
                None, None, port, None, None, "shared", "static", None, None, [])
  }

  const REGISTRIES := Registries({"standard"}, {"static", "dynamic"})

  lemma SampleTexts()
    ensures IsSlug("a") && Utf8Length("a") == 1
  {
    SplitOne("a", '-');
    assert Split("a", '-') == ["a"] && IsWord("a");
  }

  lemma SampleIsAccepted(scoring: string, port: Option<int>)
    requires scoring in {"static", "dynamic"}
    ensures WithDefaults(Sample(scoring, port)) == Sample(scoring, port)
    ensures CreateErrors(REGISTRIES, WithDefaults(Sample(scoring, port)), SlugOf(Sample(scoring, port))) == []
  {
    hide CreateErrors, IsSlug, Utf8Length;
    SampleTexts();
    CreateAccepts(REGISTRIES, Sample(scoring, port), "a");
  }

  /** A challenge that is no container is accepted with port 0, and the table refuses it. */
  lemma PortZeroIsAccepted()
    ensures var input := Sample("static", Some(0));
            && CreateErrors(REGISTRIES, WithDefaults(input), SlugOf(input)) == []
            && !DbChecks(NewRow(WithDefaults(input), SlugOf(input)))
  {
    hide CreateErrors, DbChecks, IsSlug;
    SampleIsAccepted("static", Some(0));
    CreateMeetsChecksExactly(REGISTRIES, Sample("static", Some(0)));
  }

  /** Every stored row that meets the checks accepts each of four patches that break them. */
  lemma BadPatchesAreAccepted(reg: Registries, row: Row)
    requires RowOk(row) && DbChecks(row)
    ensures forall u <- [UNCHANGED.(maxAttempts := Set(Some(0))), UNCHANGED.(internalPort := Set(Some(0))),
                         UNCHANGED.(instancing := Some("")), UNCHANGED.(flagMode := Some(""))] ::
              UpdateErrors(reg, row, u) == [] && !DbChecks(Merged(row, u))
  {
    hide UpdateErrors, IsSlug, TitleOk, TextsOk;
    forall u <- [UNCHANGED.(maxAttempts := Set(Some(0))), UNCHANGED.(internalPort := Set(Some(0))),
                 UNCHANGED.(instancing := Some("")), UNCHANGED.(flagMode := Some(""))]
      ensures UpdateErrors(reg, row, u) == [] && !DbChecks(Merged(row, u))
    {
      assert UpdateOk(reg, row, u) && !PatchInRange(u);
      UpdateAccepts(reg, row, u);
      UpdateMeetsChecksExactly(reg, row, u);
    }
  }

  /** Such a row exists, and one whose floor lies below its start. */
  lemma SampleRow()
    ensures var row := NewRow(WithDefaults(Sample("dynamic", None)), SlugOf(Sample("dynamic", None)));
            RowOk(row) && DbChecks(row) && row.scoring == "dynamic" && row.pointsMin == Some(1)
                && row.pointsInitial == 2
  {
    hide CreateErrors, DbChecks, RowOk;
    SampleIsAccepted("dynamic", None);
    CreateKeepsPromises(REGISTRIES, Sample("dynamic", None));
    CreateMeetsChecksExactly(REGISTRIES, Sample("dynamic", None));
  }
}
