/**
 The write path under concurrency. An update reads a row and validates its patch against it, and only later
 writes the patch, onto whatever the row is by then; other writes run in between.
 */
module ChallengeRuns {
  import opened Wrappers
  import opened Slug
  import opened ChallengeRows
  import opened ChallengeColumns
  import opened ChallengeService

  type CallId = nat

  /** An update between its read and its write: its patch passed the validator against `base`. */
  datatype Pending = Pending(id: ChallengeId, reg: Registries, base: Row, patch: UpdateInput)

  /** `used` is history: identifiers are never drawn twice. */
  datatype System = System(rows: map<ChallengeId, Row>, used: set<ChallengeId>, pending: map<CallId, Pending>)

  datatype Op =
    | Create(id: ChallengeId, reg: Registries, input: CreateInput)
    | BeginUpdate(call: CallId, id: ChallengeId, reg: Registries, patch: UpdateInput)
    | CommitUpdate(call: CallId)
    | Abandon(call: CallId)
    | Delete(id: ChallengeId)

  function Created(s: System, id: ChallengeId, reg: Registries, input: CreateInput): System {
    var errors := CreateErrors(reg, WithDefaults(input), SlugOf(input));
    var outcome := Outcome(errors, s.rows, id, NewRow(WithDefaults(input), SlugOf(input)));
    if outcome.Ok? then s.(rows := outcome.value, used := s.used + {id}) else s.(used := s.used + {id})
  }

  function Begun(s: System, call: CallId, p: Pending): System {
    if UpdateErrors(p.reg, p.base, p.patch) == [] then s.(pending := s.pending[call := p]) else s
  }

  function Committed(s: System, p: Pending): System {
    if p.id !in s.rows then s
    else
      var written := Write(s.rows, p.id, Merged(s.rows[p.id], p.patch));
      if written.Ok? then s.(rows := written.value) else s
  }

  function Step(s: System, op: Op): System {
    match op
    case Create(id, reg, input) =>
      if id in s.used then s else Created(s, id, reg, input)
    case BeginUpdate(call, id, reg, patch) =>
      if call in s.pending || id !in s.rows then s else Begun(s, call, Pending(id, reg, s.rows[id], patch))
    case CommitUpdate(call) =>
      if call !in s.pending then s
      else var s' := Committed(s, s.pending[call]); s'.(pending := s'.pending - {call})
    case Abandon(call) =>
      s.(pending := s.pending - {call})
    case Delete(id) =>
      s.(rows := s.rows - {id})
  }

  function Run(s: System, ops: seq<Op>): System {
    if ops == [] then s else Step(Run(s, ops[..|ops| - 1]), ops[|ops| - 1])
  }

  const EMPTY := System(map[], {}, map[])

  predicate SlugsDistinct(rows: map<ChallengeId, Row>) {
    forall i <- rows, j <- rows :: rows[i].slug == rows[j].slug ==> i == j
  }

  predicate PendingOk(s: System, p: Pending) {
    && p.id in s.used && UpdateErrors(p.reg, p.base, p.patch) == []
    && (p.id in s.rows ==> s.rows[p.id].kind == p.base.kind)
  }

  predicate RowsOk(rows: map<ChallengeId, Row>) {
    forall id <- rows :: RowOk(rows[id]) && DbChecks(rows[id])
  }

  predicate Inv(s: System) {
    && s.rows.Keys <= s.used && RowsOk(s.rows) && SlugsDistinct(s.rows)
    && forall c <- s.pending :: PendingOk(s, s.pending[c])
  }

  // ---- a patch written onto another row than it was checked against ------------------------

  /** Of all that is promised of a row, a patch checked against an older state of it can break only the rules
      of the dynamic score: every other promise speaks of one field, or of one field and the kind. */
  lemma OnlyTheScoreCanBreak(reg: Registries, base: Row, row: Row, u: UpdateInput)
    requires UpdateErrors(reg, base, u) == [] && RowOk(row) && row.kind == base.kind
    ensures RowOk(Merged(row, u)) <==> DynamicOk(Merged(row, u))
  {
    hide UpdateErrors, IsSlug, TitleOk;
    UpdateAccepts(reg, base, u);
    var m := Merged(row, u);
    assert TextsOk(m);
    assert 1 <= m.pointsInitial && 16 <= m.memLimitMb <= 8192 && 100 <= m.cpuMillis <= 8000;
    assert PlacementOk(m);
  }

  /** And that one it can break: two patches of any dynamically scored row whose floor lies below its start are
      both accepted against it, yet written one after the other they leave the floor above the start. Only the
      table's CHECK stops the second. */
  lemma TwoPatchesCanCross(reg: Registries, row: Row)
    requires RowOk(row) && row.scoring == "dynamic" && row.pointsMin.value < row.pointsInitial
    ensures var raise := UNCHANGED.(pointsMin := Set(Some(row.pointsInitial)));
            var lower := UNCHANGED.(pointsInitial := Some(row.pointsMin.value));
            && UpdateErrors(reg, row, raise) == [] && UpdateErrors(reg, row, lower) == []
            && !DynamicOk(Merged(Merged(row, raise), lower)) && !DbChecks(Merged(Merged(row, raise), lower))
            && UpdateErrors(reg, Merged(row, raise), lower) != []
  {
    hide UpdateErrors, IsSlug, TitleOk;
    var raise := UNCHANGED.(pointsMin := Set(Some(row.pointsInitial)));
    var lower := UNCHANGED.(pointsInitial := Some(row.pointsMin.value));
    UpdateAccepts(reg, row, raise);
    UpdateAccepts(reg, row, lower);
    UpdateAccepts(reg, Merged(row, raise), lower);
  }

  /** A patch that no other state of the row can turn against the dynamic score: it leaves dynamic scoring, or
      it brings along whatever dynamic scoring would need of what it changes. */
  predicate Safe(u: UpdateInput) {
    || (u.scoring.Some? && u.scoring.value != "dynamic")
    || (&& (u.scoring.Some? ==> u.pointsMin.Set? && u.decay.Set?)
        && (u.pointsMin.Set? ==> u.pointsMin.value.Some? && 1 <= u.pointsMin.value.value)
        && (u.decay.Set? ==> u.decay.value.Some? && 1 <= u.decay.value.value)
        && (u.pointsMin.Set? && u.pointsInitial.Some?
            ==> ClampI32(u.pointsMin.value.value) <= ClampI32(u.pointsInitial.value))
        && (u.pointsMin.Set? && u.pointsInitial.None? ==> u.pointsMin.value.value == 1)
        && (u.pointsMin.Keep? && u.pointsInitial.Some? ==> MAX_I32 <= u.pointsInitial.value))
  }

  predicate AcceptableState(base: Row, row: Row) {
    RowOk(row) && row.kind == base.kind
  }

  lemma SafePatchKeepsPromises(reg: Registries, base: Row, row: Row, u: UpdateInput)
    requires UpdateErrors(reg, base, u) == [] && AcceptableState(base, row) && Safe(u)
    ensures RowOk(Merged(row, u))
  {
    hide UpdateErrors, IsSlug, TitleOk, TextsOk, PlacementOk;
    OnlyTheScoreCanBreak(reg, base, row, u);
    UpdateAccepts(reg, base, u);
  }

  /** The states that catch an unsafe patch: the score at its lowest, at its highest, and not dynamic. */
  function Lowest(base: Row): Row {
    base.(scoring := "dynamic", pointsInitial := 1, pointsMin := Some(1), decay := Some(1))
  }

  function Highest(base: Row): Row {
    base.(scoring := "dynamic", pointsInitial := MAX_I32, pointsMin := Some(MAX_I32), decay := Some(1))
  }

  function Bare(base: Row): Row {
    base.(scoring := "static", pointsInitial := 1, pointsMin := None, decay := None)
  }

  lemma CaughtWhenUnsafe(reg: Registries, base: Row, u: UpdateInput)
    requires UpdateErrors(reg, base, u) == [] && RowOk(base) && !Safe(u)
    ensures AcceptableState(base, Lowest(base)) && AcceptableState(base, Highest(base))
        && AcceptableState(base, Bare(base))
    ensures !RowOk(Merged(Lowest(base), u)) || !RowOk(Merged(Highest(base), u)) || !RowOk(Merged(Bare(base), u))
  {
    hide UpdateErrors, IsSlug, TitleOk;
    UpdateAccepts(reg, base, u);
  }

  /** Exactly which accepted patches keep every promise whatever the row has become by the time they are
      written: a condition on the patch alone. */
  lemma StalePatchIsSafeExactly(reg: Registries, base: Row, u: UpdateInput)
    requires UpdateErrors(reg, base, u) == [] && RowOk(base)
    ensures (forall row | AcceptableState(base, row) :: RowOk(Merged(row, u))) <==> Safe(u)
  {
    hide UpdateErrors, RowOk, Merged, Safe, AcceptableState;
    if Safe(u) {
      forall row | AcceptableState(base, row)
        ensures RowOk(Merged(row, u))
      {
        SafePatchKeepsPromises(reg, base, row, u);
      }
    } else {
      CaughtWhenUnsafe(reg, base, u);
    }
  }

  /** Not only the order can be lost: of any statically scored row with a floor and a decay, one patch drops
      the floor while another makes the score dynamic. */
  lemma FloorCanVanish(reg: Registries, row: Row)
    requires RowOk(row) && row.scoring == "static" && "dynamic" in reg.modes
    requires DynamicOk(row.(scoring := "dynamic"))
    ensures var drop := UNCHANGED.(pointsMin := Set(None));
            var enliven := UNCHANGED.(scoring := Some("dynamic"));
            && UpdateErrors(reg, row, drop) == [] && UpdateErrors(reg, row, enliven) == []
            && RowOk(Merged(row, enliven))
            && Merged(Merged(row, enliven), drop).scoring == "dynamic"
            && Merged(Merged(row, enliven), drop).pointsMin == None
            && !DynamicOk(Merged(Merged(row, enliven), drop))
  {
    hide UpdateErrors, IsSlug, TitleOk;
    UpdateAccepts(reg, row, UNCHANGED.(pointsMin := Set(None)));
    UpdateAccepts(reg, row, UNCHANGED.(scoring := Some("dynamic")));
  }

  // ---- every run ---------------------------------------------------------------------------

  lemma WriteKeeps(rows: map<ChallengeId, Row>, id: ChallengeId, row: Row)
    requires RowsOk(rows) && SlugsDistinct(rows) && RowOk(row)
    ensures var w := Write(rows, id, row); w.Ok? ==> RowsOk(w.value) && SlugsDistinct(w.value)
  {
    hide RowOk, DbChecks;
  }

  lemma CreateKeepsInv(s: System, id: ChallengeId, reg: Registries, input: CreateInput)
    requires Inv(s) && id !in s.used
    ensures Inv(Created(s, id, reg, input))
  {
    hide CreateErrors, UpdateErrors, RowOk, DbChecks, NewRow, WithDefaults, SlugOf, SlugsDistinct, RowsOk;
    if CreateErrors(reg, WithDefaults(input), SlugOf(input)) == [] {
      CreateKeepsPromises(reg, input);
      WriteKeeps(s.rows, id, NewRow(WithDefaults(input), SlugOf(input)));
    }
  }

  lemma CommitKeepsInv(s: System, p: Pending)
    requires Inv(s) && PendingOk(s, p)
    ensures Inv(Committed(s, p))
  {
    hide UpdateErrors, RowOk, DbChecks, SlugsDistinct, TextsOk, NumbersOk, PlacementOk, DynamicOk, Merged;
    if p.id in s.rows {
      var row := s.rows[p.id];
      var m := Merged(row, p.patch);
      MergedKeepsKind(row, p.patch);
      if DbChecks(m) {
        DbChecksOrder(m);
        OnlyTheScoreCanBreak(p.reg, p.base, row, p.patch);
        WriteKeeps(s.rows, p.id, m);
      }
    }
  }

  lemma MergedKeepsKind(row: Row, u: UpdateInput)
    ensures Merged(row, u).kind == row.kind
  {
  }

  lemma DbChecksOrder(row: Row)
    requires DbChecks(row)
    ensures DynamicOk(row)
  {
  }

  lemma StepKeepsInv(s: System, op: Op)
    requires Inv(s)
    ensures Inv(Step(s, op))
  {
    hide UpdateErrors, RowOk, DbChecks, Created, Committed;
    match op
    case Create(id, reg, input) =>
      if id !in s.used {
        CreateKeepsInv(s, id, reg, input);
      }
    case CommitUpdate(call) =>
      if call in s.pending {
        CommitKeepsInv(s, s.pending[call]);
      }
    case _ =>
  }

  /** However creates, updates and deletes interleave, every stored row keeps every promise and meets every
      CHECK, and no two rows share a slug. */
  lemma {:induction false} EveryRunIsOk(ops: seq<Op>)
    ensures Inv(Run(EMPTY, ops))
  {
    hide Step, Inv;
    if ops != [] {
      EveryRunIsOk(ops[..|ops| - 1]);
      StepKeepsInv(Run(EMPTY, ops[..|ops| - 1]), ops[|ops| - 1]);
    } else {
      EmptyIsOk();
    }
  }

  lemma EmptyIsOk()
    ensures Inv(EMPTY)
  {
  }

  lemma RunSnoc(s: System, ops: seq<Op>, op: Op)
    ensures Run(s, ops + [op]) == Step(Run(s, ops), op)
  {
    assert (ops + [op])[..|ops|] == ops;
  }

  lemma RunFour(s: System, a: Op, b: Op, c: Op, d: Op)
    ensures Run(s, [a, b, c, d]) == Step(Step(Step(Step(s, a), b), c), d)
  {
    hide Step;
    RunSnoc(s, [a, b, c], d);
    RunSnoc(s, [a, b], c);
    RunSnoc(s, [a], b);
    RunSnoc(s, [], a);
    assert [] + [a] == [a] && [a] + [b] == [a, b] && [a, b] + [c] == [a, b, c] && [a, b, c] + [d] == [a, b, c, d];
  }

  function Raise(row: Row): UpdateInput {
    UNCHANGED.(pointsMin := Set(Some(row.pointsInitial)))
  }

  function LowerTo(floor: int32): UpdateInput {
    UNCHANGED.(pointsInitial := Some(floor))
  }

  function Crossing(a: CallId, b: CallId, id: ChallengeId, reg: Registries, row: Row, floor: int32): seq<Op> {
    [BeginUpdate(a, id, reg, Raise(row)), BeginUpdate(b, id, reg, LowerTo(floor)), CommitUpdate(a), CommitUpdate(b)]
  }

  /** The two patches that cross, sent at once in any reachable state: both pass the validator, the first is
      stored and the second is refused by the table, so the row stays in order. */
  lemma CrossingIsStopped(s: System, a: CallId, b: CallId, id: ChallengeId, reg: Registries)
    requires Inv(s) && id in s.rows && a !in s.pending && b !in s.pending && a != b
    requires s.rows[id].scoring == "dynamic" && s.rows[id].pointsMin.Some?
        && s.rows[id].pointsMin.value < s.rows[id].pointsInitial
    ensures var row := s.rows[id];
            && Run(s, Crossing(a, b, id, reg, row, row.pointsMin.value))
                == s.(rows := s.rows[id := Merged(row, Raise(row))])
            && Merged(row, Raise(row)) != row
  {
    hide UpdateErrors, DbChecks, RowOk, Merged, Run, Inv;
    var row := s.rows[id];
    var raise, lower := Raise(row), LowerTo(row.pointsMin.value);
    StoredRowIsOk(s, id);
    TwoPatchesCanCross(reg, row);
    UpdateMeetsChecksExactly(reg, row, raise);
    RaisedRow(row);
    RunFour(s, BeginUpdate(a, id, reg, raise), BeginUpdate(b, id, reg, lower), CommitUpdate(a), CommitUpdate(b));
    var first, second := Pending(id, reg, row, raise), Pending(id, reg, row, lower);
    var s2 := s.(pending := s.pending[a := first][b := second]);
    assert Step(Step(s, BeginUpdate(a, id, reg, raise)), BeginUpdate(b, id, reg, lower)) == s2;
    var s3 := s.(rows := s.rows[id := Merged(row, raise)], pending := s.pending[b := second]);
    assert s2.pending - {a} == s.pending[b := second];
    assert Step(s2, CommitUpdate(a)) == s3;
    assert s3.pending - {b} == s.pending;
  }

  lemma FirstCreate(id: ChallengeId, reg: Registries, input: CreateInput)
    requires CreateErrors(reg, WithDefaults(input), SlugOf(input)) == []
        && DbChecks(NewRow(WithDefaults(input), SlugOf(input)))
    ensures Step(EMPTY, Create(id, reg, input))
        == System(map[id := NewRow(WithDefaults(input), SlugOf(input))], {id}, map[])
  {
    hide CreateErrors, DbChecks, WithDefaults, SlugOf, NewRow;
    assert {} + {id} == {id};
  }

  /** Such a state is reached: the sample challenge is created, and then the patches cross. */
  lemma CrossingIsReached(id: ChallengeId)
    ensures var input := Sample("dynamic", None);
            var row := NewRow(WithDefaults(input), SlugOf(input));
            && Run(EMPTY, [Create(id, REGISTRIES, input)]) == System(map[id := row], {id}, map[])
            && Run(System(map[id := row], {id}, map[]), Crossing(0, 1, id, REGISTRIES, row, 1))
            == System(map[id := Merged(row, Raise(row))], {id}, map[])
  {
    hide Inv, CreateErrors, NewRow, WithDefaults, SlugOf, Merged, Sample, Crossing, DbChecks, RowOk, Run, Step;
    var input := Sample("dynamic", None);
    var row := NewRow(WithDefaults(input), SlugOf(input));
    SampleRow();
    SampleIsAccepted("dynamic", None);
    RunOne(EMPTY, Create(id, REGISTRIES, input));
    FirstCreate(id, REGISTRIES, input);
    EveryRunIsOk([Create(id, REGISTRIES, input)]);
    CrossingIsStopped(System(map[id := row], {id}, map[]), 0, 1, id, REGISTRIES);
  }

  lemma RunOne(s: System, op: Op)
    ensures Run(s, [op]) == Step(s, op)
  {
    assert [op][..0] == [];
  }

  lemma StoredRowIsOk(s: System, id: ChallengeId)
    requires Inv(s) && id in s.rows
    ensures RowOk(s.rows[id]) && DbChecks(s.rows[id]) && !SlugTaken(s.rows, id, s.rows[id].slug)
  {
    hide RowOk, DbChecks;
  }

  lemma RaisedRow(row: Row)
    requires row.pointsMin.Some? && row.pointsMin.value < row.pointsInitial
    ensures var raised := Merged(row, UNCHANGED.(pointsMin := Set(Some(row.pointsInitial))));
            raised.slug == row.slug && raised != row
  {
  }

  /** What a step can do to the table: create one row as its input gives it, apply one pending patch to one row as
      it is by then, delete one row, or leave the table alone. */
  predicate StepApplies(s: System, op: Op, s': System) {
    match op
    case Create(id, _, input) =>
      || s'.rows == s.rows
      || (&& id !in s.rows && id in s'.rows && s'.rows == s.rows[id := s'.rows[id]]
          && StoredAsGiven(input, s'.rows[id]))
    case CommitUpdate(call) =>
      || s'.rows == s.rows
      || (&& call in s.pending && s.pending[call].id in s.rows && s.pending[call].id in s'.rows
          && var id := s.pending[call].id;
             && s'.rows == s.rows[id := s'.rows[id]]
             && PatchApplied(s.rows[id], s.pending[call].patch, s'.rows[id]))
    case Delete(id) => s'.rows == s.rows - {id}
    case _ => s'.rows == s.rows
  }

  /** In every run each column of every row is what its last accepted write says: no step does more. */
  lemma StepsApplyWhatTheySay(s: System, op: Op)
    requires Inv(s)
    ensures StepApplies(s, op, Step(s, op))
  {
    hide StoredAsGiven, PatchApplied, Merged, NewRow, WithDefaults, SlugOf, CreateErrors, UpdateErrors, DbChecks, RowOk;
    match op
    case Create(id, reg, input) =>
      CreatedAsGiven(input);
      assert s.rows.Keys <= s.used;
    case CommitUpdate(call) =>
      if call in s.pending && s.pending[call].id in s.rows {
        var p := s.pending[call];
        MergedAsPatched(s.rows[p.id], p.patch, Merged(s.rows[p.id], p.patch));
      }
    case _ =>
  }

  /** Undisturbed, the two steps of an update have the outcome of the method. */
  lemma UpdateStepsAreUpdate(s: System, call: CallId, id: ChallengeId, reg: Registries, patch: UpdateInput)
    requires call !in s.pending && id in s.rows
    ensures var s' := Step(Step(s, BeginUpdate(call, id, reg, patch)), CommitUpdate(call));
            var outcome := Outcome(UpdateErrors(reg, s.rows[id], patch), s.rows, id, Merged(s.rows[id], patch));
            && s'.rows == (if outcome.Ok? then outcome.value else s.rows)
            && s'.pending == s.pending && s'.used == s.used
  {
    hide UpdateErrors, Merged, DbChecks;
    var p := Pending(id, reg, s.rows[id], patch);
    if UpdateErrors(reg, s.rows[id], patch) == [] {
      assert Step(s, BeginUpdate(call, id, reg, patch)) == s.(pending := s.pending[call := p]);
      assert s.pending[call := p] - {call} == s.pending;
    }
  }

  // ---- updates one after another -----------------------------------------------------------

  /** The row after a list of updates, each checked against the row it finds and skipped when refused; the
      table's own constraints are not consulted. */
  function Updated(row: Row, edits: seq<(Registries, UpdateInput)>): Row {
    if edits == [] then row
    else
      var r := Updated(row, edits[..|edits| - 1]);
      var (reg, u) := edits[|edits| - 1];
      if UpdateErrors(reg, r, u) == [] then Merged(r, u) else r
  }

  /** Without concurrency the validators need no help: a created row keeps every promise through any list of
      updates, and never changes kind. */
  lemma {:induction false} UpdatesInTurnKeepPromises(reg: Registries, input: CreateInput,
                                                     edits: seq<(Registries, UpdateInput)>)
    requires CreateErrors(reg, WithDefaults(input), SlugOf(input)) == []
    ensures var first := NewRow(WithDefaults(input), SlugOf(input));
            RowOk(Updated(first, edits)) && Updated(first, edits).kind == first.kind
  {
    hide CreateErrors, UpdateErrors, RowOk, Merged, NewRow, WithDefaults, SlugOf;
    if edits == [] {
      CreateKeepsPromises(reg, input);
    } else {
      UpdatesInTurnKeepPromises(reg, input, edits[..|edits| - 1]);
      var r := Updated(NewRow(WithDefaults(input), SlugOf(input)), edits[..|edits| - 1]);
      var (reg', u) := edits[|edits| - 1];
      if UpdateErrors(reg', r, u) == [] {
        UpdateKeepsPromises(reg', r, u);
      }
    }
  }
}
