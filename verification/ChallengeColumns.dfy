/**
 What a write leaves in each column, stated of the input, the row before and the row after; and that the
 validators turn away nothing the table and the rules of the application would take.
 */
module ChallengeColumns {
  import opened Wrappers
  import opened Slug
  import Text
  import opened ChallengeRows

  // ---- create ------------------------------------------------------------------------------

  /** The column holds what was given, or the default when that was the empty string. */
  predicate Given(given: string, otherwise: string, stored: string) {
    (given != "" ==> stored == given) && (given == "" ==> stored == otherwise)
  }

  /** A number that may be missing is stored as it was given, saturated. */
  predicate GivenNumber(given: Option<int>, stored: Option<int32>) {
    (given.None? ==> stored.None?) && (given.Some? ==> stored == Some(ClampI32(given.value)))
  }

  predicate StoredAsGiven(input: CreateInput, row: Row) {
    && (input.slug.Some? ==> row.slug == input.slug.value) && (input.slug.None? ==> row.slug == Slugify(input.title))
    && row.title == input.title && row.category == input.category && row.difficulty == input.difficulty
    && Given(input.kind, "standard", row.kind) && Given(input.typeId, "standard", row.typeId)
    && row.flag == input.flag && Given(input.scoring, "dynamic", row.scoring)
    && row.pointsInitial == ClampI32(input.pointsInitial)
    && GivenNumber(input.pointsMin, row.pointsMin) && GivenNumber(input.decay, row.decay)
    && GivenNumber(input.maxAttempts, row.maxAttempts)
    && row.image == input.image && GivenNumber(input.internalPort, row.internalPort)
    && (if input.memLimitMb.None? then row.memLimitMb == 256 else row.memLimitMb == ClampI32(input.memLimitMb.value))
    && (if input.cpuMillis.None? then row.cpuMillis == 500 else row.cpuMillis == ClampI32(input.cpuMillis.value))
    && Given(input.instancing, "shared", row.instancing) && Given(input.flagMode, "static", row.flagMode)
    && GivenNumber(input.instanceTtl, row.instanceTtl)
    && row.egress == (input.egress != Some(false)) && row.writablePaths == input.writablePaths
  }

  /** Every column of a created row holds what the input gave it or its documented default. */
  lemma CreatedAsGiven(input: CreateInput)
    ensures StoredAsGiven(input, NewRow(WithDefaults(input), SlugOf(input)))
  {
    hide Slugify;
  }

  // ---- update ------------------------------------------------------------------------------

  /** A column the patch sets has the patch's value, one it leaves out its old one. */
  predicate Took<T(==)>(patch: Option<T>, before: T, after: T) {
    (patch.Some? ==> after == patch.value) && (patch.None? ==> after == before)
  }

  predicate TookNumber(patch: Option<int>, before: int32, after: int32) {
    (patch.Some? ==> after == ClampI32(patch.value)) && (patch.None? ==> after == before)
  }

  /** The same where a patch can also set a column to null. */
  predicate TookOrCleared<T(==)>(patch: Change<T>, before: Option<T>, after: Option<T>) {
    (patch.Set? ==> after == patch.value) && (patch.Keep? ==> after == before)
  }

  predicate TookNumberOrCleared(patch: Change<int>, before: Option<int32>, after: Option<int32>) {
    (patch.Set? ==> GivenNumber(patch.value, after)) && (patch.Keep? ==> after == before)
  }

  predicate PatchApplied(before: Row, u: UpdateInput, after: Row) {
    && Took(u.slug, before.slug, after.slug) && Took(u.title, before.title, after.title)
    && Took(u.category, before.category, after.category)
    && TookOrCleared(u.difficulty, before.difficulty, after.difficulty)
    && after.kind == before.kind && Took(u.typeId, before.typeId, after.typeId)
    && Took(u.flag, before.flag, after.flag) && Took(u.scoring, before.scoring, after.scoring)
    && TookNumber(u.pointsInitial, before.pointsInitial, after.pointsInitial)
    && TookNumberOrCleared(u.pointsMin, before.pointsMin, after.pointsMin)
    && TookNumberOrCleared(u.decay, before.decay, after.decay)
    && TookNumberOrCleared(u.maxAttempts, before.maxAttempts, after.maxAttempts)
    && TookOrCleared(u.image, before.image, after.image)
    && TookNumberOrCleared(u.internalPort, before.internalPort, after.internalPort)
    && TookNumber(u.memLimitMb, before.memLimitMb, after.memLimitMb)
    && TookNumber(u.cpuMillis, before.cpuMillis, after.cpuMillis)
    && Took(u.instancing, before.instancing, after.instancing) && Took(u.flagMode, before.flagMode, after.flagMode)
    && TookNumberOrCleared(u.instanceTtl, before.instanceTtl, after.instanceTtl)
    && Took(u.egress, before.egress, after.egress) && Took(u.writablePaths, before.writablePaths, after.writablePaths)
  }

  /** Every column of an updated row holds the patch's value, saturated if it is a number, or its old one; and
      that determines the row. */
  lemma MergedAsPatched(before: Row, u: UpdateInput, after: Row)
    ensures PatchApplied(before, u, after) <==> after == Merged(before, u)
  {
    hide ClampI32;
  }

  /** No column is set by both patches. */
  predicate DifferentColumns(u: UpdateInput, w: UpdateInput) {
    && (u.slug.None? || w.slug.None?) && (u.title.None? || w.title.None?) && (u.category.None? || w.category.None?)
    && (u.difficulty.Keep? || w.difficulty.Keep?) && (u.typeId.None? || w.typeId.None?)
    && (u.flag.None? || w.flag.None?) && (u.scoring.None? || w.scoring.None?)
    && (u.pointsInitial.None? || w.pointsInitial.None?) && (u.pointsMin.Keep? || w.pointsMin.Keep?)
    && (u.decay.Keep? || w.decay.Keep?) && (u.maxAttempts.Keep? || w.maxAttempts.Keep?)
    && (u.image.Keep? || w.image.Keep?) && (u.internalPort.Keep? || w.internalPort.Keep?)
    && (u.memLimitMb.None? || w.memLimitMb.None?) && (u.cpuMillis.None? || w.cpuMillis.None?)
    && (u.instancing.None? || w.instancing.None?) && (u.flagMode.None? || w.flagMode.None?)
    && (u.instanceTtl.Keep? || w.instanceTtl.Keep?) && (u.egress.None? || w.egress.None?)
    && (u.writablePaths.None? || w.writablePaths.None?)
  }

  /** Patches of different columns commute: whichever is written first, neither is lost. */
  lemma PatchesCommute(row: Row, u: UpdateInput, w: UpdateInput)
    requires DifferentColumns(u, w)
    ensures Merged(Merged(row, u), w) == Merged(Merged(row, w), u)
    ensures u.flag.Some? ==> Merged(Merged(row, u), w).flag == u.flag.value
  {
    hide ClampI32;
  }

  // ---- nothing else is turned away ---------------------------------------------------------

  predicate Fits(n: int) {
    -0x8000_0000 <= n <= 0x7FFF_FFFF
  }

  predicate MayFit(n: Option<int>) {
    n.Some? ==> Fits(n.value)
  }

  predicate InputFits(input: CreateInput) {
    && Fits(input.pointsInitial) && MayFit(input.pointsMin) && MayFit(input.decay) && MayFit(input.maxAttempts)
    && MayFit(input.internalPort) && MayFit(input.memLimitMb) && MayFit(input.cpuMillis) && MayFit(input.instanceTtl)
  }

  /** An input whose row the table takes is accepted, given a proper slug, a title of 1 to 200 bytes, a flag,
      registered names, and an image that is not empty where a container needs one. */
  lemma GoodInputsAreAccepted(reg: Registries, input: CreateInput)
    requires InputFits(input) && DbChecks(NewRow(WithDefaults(input), SlugOf(input)))
    requires IsSlug(SlugOf(input)) && 1 <= Text.Utf8Length(input.title) <= 200 && input.flag != ""
    requires WithDefaults(input).typeId in reg.types && WithDefaults(input).scoring in reg.modes
    requires WithDefaults(input).kind == "container" ==> input.image != Some("")
    ensures CreateErrors(reg, WithDefaults(input), SlugOf(input)) == []
  {
    hide CreateErrors, IsSlug, Text.Utf8Length, SlugOf;
    CreateAccepts(reg, WithDefaults(input), SlugOf(input));
  }

  predicate ChangeFits(c: Change<int>) {
    c.Set? ==> MayFit(c.value)
  }

  predicate PatchFits(u: UpdateInput) {
    && MayFit(u.pointsInitial) && ChangeFits(u.pointsMin) && ChangeFits(u.decay) && ChangeFits(u.maxAttempts)
    && ChangeFits(u.internalPort) && MayFit(u.memLimitMb) && MayFit(u.cpuMillis) && ChangeFits(u.instanceTtl)
  }

  /** And so is a patch that leads from a good row to one the table takes, under the same conditions on what it sets. */
  lemma GoodPatchesAreAccepted(reg: Registries, row: Row, u: UpdateInput)
    requires PatchFits(u) && DbChecks(row) && DbChecks(Merged(row, u))
    requires (u.slug.Some? ==> IsSlug(u.slug.value)) && u.flag != Some("")
    requires u.title.Some? ==> 1 <= Text.Utf8Length(u.title.value) <= 200
    requires (u.typeId.Some? ==> u.typeId.value in reg.types) && (u.scoring.Some? ==> u.scoring.value in reg.modes)
    requires row.kind == "container" ==> Merged(row, u).image != Some("")
    ensures UpdateErrors(reg, row, u) == []
  {
    hide UpdateErrors, IsSlug, Text.Utf8Length;
    UpdateAccepts(reg, row, u);
  }
}
