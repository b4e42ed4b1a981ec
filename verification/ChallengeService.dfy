/** The write path as the source writes it: validators that add to a shared report, and a service that changes
    the stored rows. */
module ChallengeService {
  import opened Wrappers
  import opened Text
  import opened Slug
  import opened ChallengeRows
  import opened ChallengeColumns

  /** The broken rules of each field, in the order they were reported. */
  function Collected(errors: seq<FieldError>): map<Field, seq<Rule>> {
    if errors == [] then map[]
    else
      var before, last := Collected(errors[..|errors| - 1]), errors[|errors| - 1];
      before[last.field := (if last.field in before then before[last.field] else []) + [last.rule]]
  }

  lemma {:induction false} CollectedIsEmptyExactly(errors: seq<FieldError>)
    ensures Collected(errors) == map[] <==> errors == []
  {
    if errors != [] {
      assert errors[|errors| - 1].field in Collected(errors);
    }
  }

  /** The rules reported of one field, first to last. */
  function RulesOf(errors: seq<FieldError>, field: Field): seq<Rule> {
    if errors == [] then []
    else (if errors[0].field == field then [errors[0].rule] else []) + RulesOf(errors[1..], field)
  }

  lemma {:induction false} RulesOfSnoc(errors: seq<FieldError>, last: FieldError, field: Field)
    ensures RulesOf(errors + [last], field) == RulesOf(errors, field) + if last.field == field then [last.rule] else []
  {
    if errors == [] {
      assert [last][1..] == [];
    } else {
      assert (errors + [last])[1..] == errors[1..] + [last];
      RulesOfSnoc(errors[1..], last, field);
    }
  }

  /** What is collected under a field is what was reported of it, in the order it was reported. */
  lemma {:induction false} CollectedInOrder(errors: seq<FieldError>, field: Field)
    ensures field in Collected(errors) <==> RulesOf(errors, field) != []
    ensures field in Collected(errors) ==> Collected(errors)[field] == RulesOf(errors, field)
  {
    if errors != [] {
      var init := errors[..|errors| - 1];
      CollectedInOrder(init, field);
      RulesOfSnoc(init, errors[|errors| - 1], field);
      assert errors == init + [errors[|errors| - 1]];
    }
  }

  class Validation {
    var fields: map<Field, seq<Rule>>
    ghost var reported: seq<FieldError>

    ghost predicate Valid()
      reads this
    {
      fields == Collected(reported)
    }

    constructor ()
      ensures Valid() && reported == []
    {
      fields := map[];
      reported := [];
    }

    method Add(field: Field, rule: Rule)
      requires Valid()
      modifies this
      ensures Valid() && reported == old(reported) + [FieldError(field, rule)]
    {
      var rules := if field in fields then fields[field] else [];
      fields := fields[field := rules + [rule]];
      reported := reported + [FieldError(field, rule)];
      assert reported[..|reported| - 1] == old(reported);
    }

    method AddIf(bad: bool, field: Field, rule: Rule)
      requires Valid()
      modifies this
      ensures Valid() && reported == Note(old(reported), bad, field, rule)
    {
      if bad {
        Add(field, rule);
      }
    }

    method HasErrors() returns (any: bool)
      requires Valid()
      ensures any <==> reported != []
    {
      CollectedIsEmptyExactly(reported);
      any := fields != map[];
    }
  }

  method ValidateContainerLimits(v: Validation, mem: Option<int>, cpu: Option<int>)
    requires v.Valid()
    modifies v
    ensures v.Valid() && v.reported == NoteLimits(old(v.reported), mem, cpu)
  {
    v.AddIf(mem.Some? && !(16 <= mem.value <= 8192), MemLimitField, MemRange);
    v.AddIf(cpu.Some? && !(100 <= cpu.value <= 8000), CpuField, CpuRange);
  }

  method ValidateDynamic(v: Validation, scoring: string, pointsMin: int, pointsInitial: int, decay: int)
    requires v.Valid()
    modifies v
    ensures v.Valid() && v.reported == NoteDynamic(old(v.reported), scoring, pointsMin, pointsInitial, decay)
  {
    if scoring == "dynamic" {
      if pointsMin < 1 {
        v.Add(PointsMinField, PositiveForDynamic);
      } else if pointsMin > pointsInitial {
        v.Add(PointsMinField, AtMostInitial);
      }
      if decay < 1 {
        v.Add(DecayField, PositiveForDynamic);
      }
    }
  }

  method ValidateInstancing(v: Validation, kind: string, instancing: string, flagMode: string, ttl: Option<int>,
                            egress: Option<bool>, hasWritable: bool)
    requires v.Valid()
    modifies v
    ensures v.Valid()
        && v.reported == NoteInstancing(old(v.reported), kind, instancing, flagMode, ttl, egress, hasWritable)
    ensures v.reported == []
        <==> old(v.reported) == [] && InstancingOk(kind, instancing, flagMode, ttl, egress, hasWritable)
  {
    hide Collected, Note, InstancingOk;
    InstancingAccepts(v.reported, kind, instancing, flagMode, ttl, egress, hasWritable);
    v.AddIf(instancing !in {"", "shared", "per_team"}, InstancingField, KnownInstancing);
    v.AddIf(flagMode !in {"", "static", "per_instance"}, FlagModeField, KnownFlagMode);
    v.AddIf(ttl.Some? && ttl.value < 0, TtlField, NotNegative);
    if kind == "container" {
      return;
    }
    v.AddIf(instancing == "per_team", InstancingField, ContainerOnly);
    v.AddIf(flagMode == "per_instance", FlagModeField, ContainerOnly);
    v.AddIf(ttl.Some?, TtlField, ContainerOnly);
    v.AddIf(egress == Some(false), EgressField, ContainerOnly);
    v.AddIf(hasWritable, WritablePathsField, ContainerOnly);
  }

  method ValidateTexts(v: Validation, reg: Registries, input: CreateInput, slug: string)
    requires v.Valid()
    modifies v
    ensures v.Valid() && v.reported == NoteTexts(old(v.reported), reg, input, slug)
  {
    hide Collected, Note, IsSlug, Utf8Length;
    v.AddIf(!IsSlug(slug), SlugField, SlugPattern);
    v.AddIf(!(1 <= Utf8Length(input.title) <= 200), TitleField, TitleLength);
    v.AddIf(input.category !in CATEGORIES, CategoryField, KnownCategory);
    v.AddIf(input.difficulty.Some? && input.difficulty.value !in DIFFICULTIES, DifficultyField, KnownDifficulty);
    v.AddIf(input.kind !in {"standard", "container"}, KindField, KnownKind);
    v.AddIf(input.typeId !in reg.types, TypeField, RegisteredType);
    v.AddIf(input.flag == "", FlagField, FlagPresent);
    v.AddIf(input.scoring !in reg.modes, ScoringField, RegisteredMode);
    v.AddIf(input.pointsInitial < 1, PointsInitialField, Positive);
  }

  method ValidateCreate(v: Validation, reg: Registries, input: CreateInput, slug: string)
    requires v.Valid() && v.reported == []
    modifies v
    ensures v.Valid() && v.reported == CreateErrors(reg, input, slug)
    ensures v.reported == [] <==> CreateOk(reg, input, slug)
  {
    hide Collected, Note, NoteTexts, NoteLimits, NoteInstancing, NoteDynamic, HasImage, CreateOk, InstancingOk;
    CreateAccepts(reg, input, slug);
    ValidateTexts(v, reg, input, slug);
    ValidateDynamic(v, input.scoring, ValOrZero(input.pointsMin), input.pointsInitial, ValOrZero(input.decay));
    if input.kind == "container" {
      v.AddIf(!HasImage(input.image), ImageField, ContainerImage);
      v.AddIf(input.internalPort.None? || !(1 <= input.internalPort.value <= 65535), InternalPortField, ContainerPort);
    }
    ValidateContainerLimits(v, input.memLimitMb, input.cpuMillis);
    v.AddIf(input.maxAttempts.Some? && input.maxAttempts.value < 1, MaxAttemptsField, Positive);
    ValidateInstancing(v, input.kind, input.instancing, input.flagMode, input.instanceTtl, input.egress,
                       input.writablePaths != []);
  }

  /** The type, the scoring mode and the numbers the row would be scored by, the patch's where it sets them. */
  method ValidateCosts(v: Validation, reg: Registries, cur: Row, u: UpdateInput)
    requires v.Valid()
    modifies v
    ensures v.Valid() && v.reported == NoteCosts(old(v.reported), reg, cur, u)
  {
    hide Collected, NoteDynamic;
    v.AddIf(u.typeId.Some? && u.typeId.value !in reg.types, TypeField, RegisteredType);
    var scoring := cur.scoring;
    if u.scoring.Some? {
      scoring := u.scoring.value;
      v.AddIf(scoring !in reg.modes, ScoringField, RegisteredMode);
    }
    var pointsInitial: int := cur.pointsInitial;
    if u.pointsInitial.Some? {
      pointsInitial := u.pointsInitial.value;
      v.AddIf(pointsInitial < 1, PointsInitialField, Positive);
    }
    var pointsMin := ValOrZero(cur.pointsMin);
    if u.pointsMin.Set? {
      pointsMin := ValOrZero(u.pointsMin.value);
    }
    var decay := ValOrZero(cur.decay);
    if u.decay.Set? {
      decay := ValOrZero(u.decay.value);
    }
    ValidateDynamic(v, scoring, pointsMin, pointsInitial, decay);
  }

  method ValidatePatchTexts(v: Validation, u: UpdateInput)
    requires v.Valid()
    modifies v
    ensures v.Valid() && v.reported == NotePatchTexts(old(v.reported), u)
  {
    hide Collected, Note, IsSlug, Utf8Length;
    v.AddIf(u.slug.Some? && !IsSlug(u.slug.value), SlugField, SlugPattern);
    v.AddIf(u.category.Some? && u.category.value !in CATEGORIES, CategoryField, KnownCategory);
    v.AddIf(u.difficulty.Set? && u.difficulty.value.Some? && u.difficulty.value.value !in DIFFICULTIES,
            DifficultyField, KnownDifficulty);
    v.AddIf(u.title.Some? && !(1 <= Utf8Length(u.title.value) <= 200), TitleField, TitleLength);
    v.AddIf(u.flag.Some? && u.flag.value == "", FlagField, FlagPresent);
  }

  /** A container must keep an image and a port. */
  method ValidateKeepsContainer(v: Validation, cur: Row, u: UpdateInput)
    requires v.Valid()
    modifies v
    ensures v.Valid() && v.reported == NoteKeepsContainer(old(v.reported), cur, u)
  {
    hide Collected, Note;
    if cur.kind == "container" {
      var image := cur.image;
      if u.image.Set? {
        image := u.image.value;
      }
      var port := cur.internalPort;
      if u.internalPort.Set? {
        port := I32p(u.internalPort.value);
      }
      v.AddIf(!HasImage(image), ImageField, ContainerImage);
      v.AddIf(port.None?, InternalPortField, ContainerPort);
    }
  }

  method ValidateUpdate(v: Validation, reg: Registries, cur: Row, u: UpdateInput)
    requires v.Valid() && v.reported == []
    modifies v
    ensures v.Valid() && v.reported == UpdateErrors(reg, cur, u)
    ensures v.reported == [] <==> UpdateOk(reg, cur, u)
  {
    hide Collected, NoteCosts, NotePatchTexts, NoteKeepsContainer, NoteLimits, NoteInstancing, UpdateOk, InstancingOk;
    UpdateAccepts(reg, cur, u);
    ValidateCosts(v, reg, cur, u);
    ValidatePatchTexts(v, u);
    ValidateKeepsContainer(v, cur, u);
    ValidateContainerLimits(v, u.memLimitMb, u.cpuMillis);
    var instancing := cur.instancing;
    if u.instancing.Some? {
      instancing := u.instancing.value;
    }
    var flagMode := cur.flagMode;
    if u.flagMode.Some? {
      flagMode := u.flagMode.value;
    }
    var ttl: Option<int> := None;
    if u.instanceTtl.Set? {
      ttl := u.instanceTtl.value;
    } else if cur.instanceTtl.Some? {
      ttl := Some(cur.instanceTtl.value);
    }
    var egress := cur.egress;
    if u.egress.Some? {
      egress := u.egress.value;
    }
    ValidateInstancing(v, cur.kind, instancing, flagMode, ttl, Some(egress),
                       u.writablePaths.Some? && u.writablePaths.value != []);
  }

  // ---- the service -------------------------------------------------------------------------

  type ChallengeId = nat

  datatype Error =
    | Invalid(fields: map<Field, seq<Rule>>)
    | NotFound
    | SlugConflict
    | CheckViolation

  predicate SlugTaken(rows: map<ChallengeId, Row>, id: ChallengeId, slug: string) {
    exists other <- rows :: other != id && rows[other].slug == slug
  }

  /** What the database makes of writing `row` under `id`. */
  function Write(rows: map<ChallengeId, Row>, id: ChallengeId, row: Row): Result<map<ChallengeId, Row>, Error> {
    if !DbChecks(row) then Err(CheckViolation)
    else if SlugTaken(rows, id, row.slug) then Err(SlugConflict)
    else Ok(rows[id := row])
  }

  function Outcome(errors: seq<FieldError>, rows: map<ChallengeId, Row>, id: ChallengeId,
                   row: Row): Result<map<ChallengeId, Row>, Error> {
    if errors != [] then Err(Invalid(Collected(errors))) else Write(rows, id, row)
  }

  class Service {
    var rows: map<ChallengeId, Row>

    constructor ()
      ensures rows == map[]
    {
      rows := map[];
    }

    method Create(id: ChallengeId, reg: Registries, input: CreateInput) returns (r: Result<Row, Error>)
      requires id !in rows
      modifies this
      ensures var input' := WithDefaults(input);
              var row := NewRow(input', SlugOf(input));
              var expected := Outcome(CreateErrors(reg, input', SlugOf(input)), old(rows), id, row);
              && (expected.Ok? ==> r == Ok(row) && rows == expected.value)
              && (expected.Err? ==> r == Err(expected.error) && rows == old(rows))
      ensures r.Ok? ==> rows.Keys == old(rows).Keys + {id} && r.value == rows[id] && StoredAsGiven(input, rows[id])
      ensures forall other <- old(rows) :: other in rows && rows[other] == old(rows)[other]
    {
      hide StoredAsGiven, CreateErrors, NewRow, WithDefaults, SlugOf, DbChecks;
      CreatedAsGiven(input);
      var input' := WithDefaults(input);
      var slug := SlugOf(input);
      var v := new Validation();
      ValidateCreate(v, reg, input', slug);
      var bad := v.HasErrors();
      if bad {
        return Err(Invalid(v.fields));
      }
      var row := NewRow(input', slug);
      var written := Write(rows, id, row);
      if written.Err? {
        return Err(written.error);
      }
      rows := written.value;
      r := Ok(row);
    }

    method Update(id: ChallengeId, reg: Registries, u: UpdateInput) returns (r: Result<Row, Error>)
      modifies this
      ensures id !in old(rows) ==> r == Err(NotFound) && rows == old(rows)
      ensures id in old(rows) ==>
                var row := Merged(old(rows)[id], u);
                var expected := Outcome(UpdateErrors(reg, old(rows)[id], u), old(rows), id, row);
                && (expected.Ok? ==> r == Ok(row) && rows == expected.value)
                && (expected.Err? ==> r == Err(expected.error) && rows == old(rows))
      ensures rows.Keys == old(rows).Keys
      ensures r.Ok? ==> id in rows && r.value == rows[id] && PatchApplied(old(rows)[id], u, rows[id])
      ensures forall other <- old(rows) :: other != id || r.Err? ==> rows[other] == old(rows)[other]
    {
      hide PatchApplied, UpdateErrors, Merged, DbChecks;
      if id !in rows {
        return Err(NotFound);
      }
      var cur := rows[id];
      MergedAsPatched(cur, u, Merged(cur, u));
      var v := new Validation();
      ValidateUpdate(v, reg, cur, u);
      var bad := v.HasErrors();
      if bad {
        return Err(Invalid(v.fields));
      }
      var row := Merged(cur, u);
      var written := Write(rows, id, row);
      if written.Err? {
        return Err(written.error);
      }
      rows := written.value;
      r := Ok(row);
    }
  }
}
