/** What the semantic check of a prediction document amounts to. Probabilities are exact. */
module PredictionContract {
  import opened Wrappers

  const TOLERANCE: real := 0.000001

  datatype Target = Winner | SetScore | PointHandicap | PointTotal

  datatype Label = Home30 | Home31 | Home32 | Away32 | Away31 | Away30

  const OUTCOME_ORDER := [Home30, Home31, Home32, Away32, Away31, Away30]

  datatype Source = AiDirect | StatisticalDerived | HybridDerived | OtherSource

  datatype Method = DirectOutput | IndependentSets | JointMarginalization | ConditionalScore | OtherMethod

  datatype Prompt = Prompt(version: string, hash: string)

  datatype Upstream = Upstream(prediction: string, model: string, config: string, artifact: string, cohort: string,
                               asOf: string, manifest: string)

  datatype SetSource = SetSource(prediction: string, producer: string, model: string, config: string)

  /** One target's provenance; a missing group of fields is None. */
  datatype Provenance = Provenance(producer: string, distributionVersion: string, snapshot: string, source: Source,
                                   derivation: Method, prompt: Option<Prompt>, upstream: Option<Upstream>,
                                   setSource: Option<SetSource>)

  datatype Entry = Entry(target: Target, provenance: Provenance)

  datatype Outcome = Outcome(score: Label, probability: real)

  /** A document that passed the schema. */
  datatype Document = Document(producer: string, distributionVersion: string, capabilities: seq<Target>,
                               provenance: seq<Entry>, homeWin: Option<real>, sets: Option<seq<Outcome>>,
                               joint: Option<string>)

  datatype JointMetadata = JointMetadata(id: string, producer: string, snapshot: string, homeWin: real, sets: seq<real>)

  /** What the caller knows; no resolver and a resolver that finds nothing are both refused. */
  datatype Context = Context(producer: Option<string>, snapshot: Option<string>,
                             resolve: string -> Option<JointMetadata>,
                             hasResolver: bool)

  datatype Fault =
    | TargetsDiffer | WrongProducer | WinnerDisagrees | SetsDisagree | JointDisagrees
    | TargetProducer | TargetVersion | TargetSnapshot | BadSource | MissingLineage | LineageDiffers
    | WrongOrder | NotAProbability | MissingWinner | SetMass | WinnerMarginal
    | NoResolver | JointNotFound | JointId | JointProducer | JointSnapshot | JointWinner | NoSetMarginal | JointSets

  function Keys(entries: seq<Entry>): set<Target> {
    set e | e in entries :: e.target
  }

  function Distance(a: real, b: real): real {
    if a < b then b - a else a - b
  }

  predicate Close(a: real, b: real) {
    Distance(a, b) <= TOLERANCE
  }

  function Sum(s: seq<real>): real {
    if s == [] then 0.0 else s[0] + Sum(s[1..])
  }

  predicate IsProbability(p: real) {
    0.0 <= p <= 1.0
  }

  predicate IsHash(h: string) {
    |h| == 64 && forall i :: 0 <= i < |h| ==> '0' <= h[i] <= '9' || 'a' <= h[i] <= 'f'
  }

  predicate SourceOk(p: Provenance) {
    match p.source
    case AiDirect => p.derivation == DirectOutput && p.prompt.Some? && IsHash(p.prompt.value.hash)
    case StatisticalDerived => p.derivation == IndependentSets || p.derivation == JointMarginalization
    case HybridDerived => p.derivation == ConditionalScore
    case OtherSource => false
  }

  predicate Statistical(p: Provenance) {
    p.derivation == IndependentSets || p.derivation == JointMarginalization
  }

  predicate LineagePresent(p: Provenance) {
    Statistical(p) ==> p.upstream.Some? && (p.derivation == JointMarginalization ==> p.setSource.Some?)
  }

  /** The upstream fields, followed by those of the set prediction for a joint marginalization. */
  datatype Lineage = Lineage(upstream: Upstream, setSource: Option<SetSource>)

  function LineageOf(p: Provenance): Lineage
    requires Statistical(p) && LineagePresent(p)
  {
    Lineage(p.upstream.value, if p.derivation == JointMarginalization then p.setSource else None)
  }

  function LabelsOf(outcomes: seq<Outcome>): seq<Label> {
    seq(|outcomes|, i requires 0 <= i < |outcomes| => outcomes[i].score)
  }

  function ProbabilitiesOf(outcomes: seq<Outcome>): seq<real> {
    seq(|outcomes|, i requires 0 <= i < |outcomes| => outcomes[i].probability)
  }

  // ---- What an accepted document is ----

  predicate PartsAgree(d: Document, context: Context) {
    var capable := set t | t in d.capabilities;
    && capable == Keys(d.provenance)
    && (context.producer.Some? ==> d.producer == context.producer.value)
    && (d.homeWin.Some? <==> Winner in capable)
    && (d.sets.Some? <==> SetScore in capable)
    && (d.joint.Some? <==> PointHandicap in capable || PointTotal in capable)
  }

  predicate EntryOk(d: Document, p: Provenance) {
    p.producer == d.producer && p.distributionVersion == d.distributionVersion && SourceOk(p) && LineagePresent(p)
  }

  predicate EntriesOk(d: Document) {
    forall e :: e in d.provenance ==> EntryOk(d, e.provenance)
  }

  /** All targets use one snapshot, the caller's if it names one. */
  predicate OneSnapshot(d: Document, context: Context) {
    && (context.snapshot.Some? ==> forall e :: e in d.provenance ==> e.provenance.snapshot == context.snapshot.value)
    && forall e, f :: e in d.provenance && f in d.provenance ==> e.provenance.snapshot == f.provenance.snapshot
  }

  /** All statistical targets have one lineage. */
  predicate OneLineage(d: Document)
    requires EntriesOk(d)
  {
    forall e, f :: e in d.provenance && f in d.provenance && Statistical(e.provenance) && Statistical(f.provenance) ==>
      LineageOf(e.provenance) == LineageOf(f.provenance)
  }

  predicate SetsOk(d: Document) {
    d.sets.Some? ==>
      && LabelsOf(d.sets.value) == OUTCOME_ORDER
      && (forall o :: o in d.sets.value ==> IsProbability(o.probability))
      && Close(Sum(ProbabilitiesOf(d.sets.value)), 1.0)
      && d.homeWin.Some? && Close(Sum(ProbabilitiesOf(d.sets.value)[..3]), d.homeWin.value)
  }

  function ExpectedSnapshot(d: Document, context: Context): Option<string> {
    if context.snapshot.Some? then context.snapshot
    else if d.provenance == [] then None
    else Some(d.provenance[0].provenance.snapshot)
  }

  predicate JointOk(d: Document, context: Context) {
    d.joint.Some? ==>
      && context.hasResolver && context.resolve(d.joint.value).Some?
      && var m := context.resolve(d.joint.value).value;
         && m.id == d.joint.value && m.producer == d.producer && Some(m.snapshot) == ExpectedSnapshot(d, context)
         && d.homeWin.Some? && Close(m.homeWin, d.homeWin.value)
         && d.sets.Some? && |m.sets| == 6 && |d.sets.value| == 6
         && forall i :: 0 <= i < 6 ==> Close(m.sets[i], d.sets.value[i].probability)
  }

  predicate Accepted(d: Document, context: Context) {
    && PartsAgree(d, context) && EntriesOk(d) && OneSnapshot(d, context) && OneLineage(d)
    && SetsOk(d) && (d.homeWin.Some? ==> IsProbability(d.homeWin.value)) && JointOk(d, context)
  }

  // ---- The check ----

  ghost predicate SnapshotSoFar(d: Document, context: Context, i: nat, expected: Option<string>)
    requires i <= |d.provenance|
  {
    && expected ==
       (if context.snapshot.Some? || i == 0 then context.snapshot else Some(d.provenance[0].provenance.snapshot))
    && forall j :: 0 <= j < i ==> Some(d.provenance[j].provenance.snapshot) == expected
  }

  ghost predicate LineageSoFar(d: Document, i: nat, expected: Option<Lineage>)
    requires i <= |d.provenance|
  {
    && (forall j :: 0 <= j < i ==> LineagePresent(d.provenance[j].provenance))
    && (forall j :: 0 <= j < i && Statistical(d.provenance[j].provenance) ==>
          expected == Some(LineageOf(d.provenance[j].provenance)))
    && (expected.Some? ==> exists j :: 0 <= j < i && Statistical(d.provenance[j].provenance))
  }

  lemma SnapshotLoopMeansOne(d: Document, context: Context, expected: Option<string>)
    requires SnapshotSoFar(d, context, |d.provenance|, expected)
    ensures OneSnapshot(d, context) && expected == ExpectedSnapshot(d, context)
  {
  }

  lemma LineageLoopMeansOne(d: Document, expected: Option<Lineage>)
    requires EntriesOk(d) && LineageSoFar(d, |d.provenance|, expected)
    ensures OneLineage(d)
  {
  }

  /** A target that differs from the first one seen spoils the agreement. */
  lemma OtherSnapshotSpoils(d: Document, context: Context, i: nat, expected: string)
    requires i < |d.provenance| && d.provenance[i].provenance.snapshot != expected
    requires context.snapshot == Some(expected) || d.provenance[0].provenance.snapshot == expected
    requires context.snapshot.Some? ==> context.snapshot.value == expected
    ensures !OneSnapshot(d, context)
  {
    assert d.provenance[i] in d.provenance && d.provenance[0] in d.provenance;
  }

  lemma OtherLineageSpoils(d: Document, i: nat, expected: Lineage)
    requires EntriesOk(d) && i < |d.provenance| && LineageSoFar(d, i, Some(expected))
    requires Statistical(d.provenance[i].provenance) && LineageOf(d.provenance[i].provenance) != expected
    ensures !OneLineage(d)
  {
    var j :| 0 <= j < i && Statistical(d.provenance[j].provenance);
    assert d.provenance[i] in d.provenance && d.provenance[j] in d.provenance;
  }

  /** The loop over the targets: what the first one shows is expected of all others. */
  method ValidateTargets(d: Document, context: Context) returns (fault: Option<Fault>, snapshot: Option<string>)
    ensures fault.None? <==> EntriesOk(d) && OneSnapshot(d, context) && OneLineage(d)
    ensures fault.None? ==> snapshot == ExpectedSnapshot(d, context)
  {
    hide SourceOk, LineageOf, OneSnapshot, OneLineage, ExpectedSnapshot, LineagePresent, Statistical;
    var expectedLineage: Option<Lineage> := None;
    snapshot := context.snapshot;
    for i := 0 to |d.provenance|
      invariant SnapshotSoFar(d, context, i, snapshot) && LineageSoFar(d, i, expectedLineage)
      invariant forall j :: 0 <= j < i ==> EntryOk(d, d.provenance[j].provenance)
    {
      var p := d.provenance[i].provenance;
      assert d.provenance[i] in d.provenance;
      if p.producer != d.producer {
        return Some(TargetProducer), snapshot;
      }
      if p.distributionVersion != d.distributionVersion {
        return Some(TargetVersion), snapshot;
      }
      if snapshot.None? {
        snapshot := Some(p.snapshot);
      }
      if p.snapshot != snapshot.value {
        OtherSnapshotSpoils(d, context, i, snapshot.value);
        return Some(TargetSnapshot), snapshot;
      }
      if !SourceOk(p) {
        return Some(BadSource), snapshot;
      }
      if Statistical(p) {
        if !LineagePresent(p) {
          return Some(MissingLineage), snapshot;
        }
        var lineage := LineageOf(p);
        if expectedLineage.None? {
          expectedLineage := Some(lineage);
        } else if lineage != expectedLineage.value {
          if EntriesOk(d) {
            OtherLineageSpoils(d, i, expectedLineage.value);
          }
          return Some(LineageDiffers), snapshot;
        }
      } else {
        NoLineageNeeded(p);
      }
    }
    assert EntriesOk(d);
    SnapshotLoopMeansOne(d, context, snapshot);
    LineageLoopMeansOne(d, expectedLineage);
    fault := None;
  }

  lemma NoLineageNeeded(p: Provenance)
    requires !Statistical(p)
    ensures LineagePresent(p)
  {
  }

  method ValidateSets(d: Document) returns (fault: Option<Fault>)
    ensures fault.None? <==> SetsOk(d) && (d.sets.Some? && d.homeWin.Some? ==> IsProbability(d.homeWin.value))
  {
    hide Sum;
    if d.sets.None? {
      return None;
    }
    var outcomes := d.sets.value;
    var labels: seq<Label> := [];
    var values: seq<real> := [];
    for i := 0 to |outcomes|
      invariant labels == LabelsOf(outcomes[..i]) && values == ProbabilitiesOf(outcomes[..i])
      invariant forall j :: 0 <= j < i ==> IsProbability(outcomes[j].probability)
    {
      assert outcomes[i] in outcomes;
      labels := labels + [outcomes[i].score];
      if !IsProbability(outcomes[i].probability) {
        return Some(NotAProbability);
      }
      values := values + [outcomes[i].probability];
    }
    assert outcomes[..|outcomes|] == outcomes;
    if labels != OUTCOME_ORDER {
      return Some(WrongOrder);
    }
    if !Close(Sum(values), 1.0) {
      return Some(SetMass);
    }
    if d.homeWin.None? {
      return Some(MissingWinner);
    }
    if !IsProbability(d.homeWin.value) {
      return Some(NotAProbability);
    }
    if !Close(Sum(values[..3]), d.homeWin.value) {
      return Some(WinnerMarginal);
    }
    fault := None;
  }

  method ValidateJoint(d: Document, context: Context, snapshot: Option<string>) returns (fault: Option<Fault>)
    requires SetsOk(d) && snapshot == ExpectedSnapshot(d, context)
    ensures fault.None? <==>
            JointOk(d, context) && (d.joint.Some? && d.homeWin.Some? ==> IsProbability(d.homeWin.value))
  {
    hide Sum;
    if d.joint.None? {
      return None;
    }
    var reference := d.joint.value;
    if !context.hasResolver {
      return Some(NoResolver);
    }
    var metadata := context.resolve(reference);
    if metadata.None? {
      return Some(JointNotFound);
    }
    var m := metadata.value;
    if m.id != reference {
      return Some(JointId);
    }
    if m.producer != d.producer {
      return Some(JointProducer);
    }
    if snapshot.None? || m.snapshot != snapshot.value {
      return Some(JointSnapshot);
    }
    if d.homeWin.None? {
      return Some(MissingWinner);
    }
    if !IsProbability(d.homeWin.value) {
      return Some(NotAProbability);
    }
    if !Close(m.homeWin, d.homeWin.value) {
      return Some(JointWinner);
    }
    if d.sets.None? || |m.sets| != 6 {
      return Some(NoSetMarginal);
    }
    SixOutcomes(d);
    for i := 0 to 6
      invariant forall j :: 0 <= j < i ==> Close(m.sets[j], d.sets.value[j].probability)
    {
      if !Close(m.sets[i], d.sets.value[i].probability) {
        return Some(JointSets);
      }
    }
    fault := None;
  }

  lemma SixOutcomes(d: Document)
    requires SetsOk(d) && d.sets.Some?
    ensures |d.sets.value| == 6
  {
    assert |LabelsOf(d.sets.value)| == 6;
  }

  /** The whole check accepts exactly the documents whose targets agree pairwise and whose masses do. */
  method ValidateSemantics(d: Document, context: Context) returns (fault: Option<Fault>)
    ensures fault.None? <==> Accepted(d, context)
  {
    hide EntriesOk, OneSnapshot, OneLineage, SetsOk, JointOk, ExpectedSnapshot, IsProbability;
    var capable := set t | t in d.capabilities;
    if capable != Keys(d.provenance) {
      return Some(TargetsDiffer);
    }
    if context.producer.Some? && d.producer != context.producer.value {
      return Some(WrongProducer);
    }
    if d.homeWin.Some? != (Winner in capable) {
      return Some(WinnerDisagrees);
    }
    if d.sets.Some? != (SetScore in capable) {
      return Some(SetsDisagree);
    }
    if d.joint.Some? != (capable * {PointHandicap, PointTotal} != {}) {
      PointCapability(capable);
      return Some(JointDisagrees);
    }
    PointCapability(capable);
    var snapshot;
    fault, snapshot := ValidateTargets(d, context);
    if fault.Some? {
      return;
    }
    fault := ValidateSets(d);
    if fault.Some? {
      return;
    }
    if d.sets.None? && d.homeWin.Some? && !IsProbability(d.homeWin.value) {
      return Some(NotAProbability);
    }
    fault := ValidateJoint(d, context, snapshot);
  }

  lemma PointCapability(capable: set<Target>)
    ensures capable * {PointHandicap, PointTotal} != {} <==> PointHandicap in capable || PointTotal in capable
  {
    if PointHandicap in capable {
      assert PointHandicap in capable * {PointHandicap, PointTotal};
    }
    if PointTotal in capable {
      assert PointTotal in capable * {PointHandicap, PointTotal};
    }
  }

  // ---- What the parts of an accepted document say, in columns ----

  predicate IsLowerHex(c: char) {
    c in "0123456789abcdef"
  }

  /** What a target of each source must say about itself. */
  lemma EntryInColumns(d: Document, p: Provenance)
    ensures EntryOk(d, p) <==>
            && p.producer == d.producer && p.distributionVersion == d.distributionVersion
            && (|| (p.source == AiDirect && p.derivation == DirectOutput && p.prompt.Some?
                    && |p.prompt.value.hash| == 64
                    && forall i :: 0 <= i < 64 ==> IsLowerHex(p.prompt.value.hash[i]))
                || (p.source == StatisticalDerived && p.upstream.Some? && p.derivation == IndependentSets)
                || (p.source == StatisticalDerived && p.upstream.Some? && p.setSource.Some?
                    && p.derivation == JointMarginalization)
                || (p.source == HybridDerived && p.derivation == ConditionalScore))
  {
    if p.prompt.Some? {
      HashInColumns(p.prompt.value.hash);
    }
    hide IsHash, IsLowerHex;
  }

  lemma HashInColumns(h: string)
    ensures IsHash(h) <==> |h| == 64 && forall i :: 0 <= i < 64 ==> IsLowerHex(h[i])
  {
    forall c: char
      ensures IsLowerHex(c) <==> '0' <= c <= '9' || 'a' <= c <= 'f'
    {
      HexInRanges(c);
    }
  }

  lemma HexInRanges(c: char)
    ensures IsLowerHex(c) <==> '0' <= c <= '9' || 'a' <= c <= 'f'
  {
    assert "0123456789abcdef" == ['0', '1', '2', '3', '4', '5', '6', '7', '8', '9', 'a', 'b', 'c', 'd', 'e', 'f'];
  }

  /** Capabilities and provenance name the same targets, and the document has exactly the parts they ask for. */
  lemma PartsInColumns(d: Document, context: Context)
    ensures PartsAgree(d, context) <==>
            && (forall t: Target :: t in d.capabilities <==> exists e :: e in d.provenance && e.target == t)
            && (context.producer == None || context.producer == Some(d.producer))
            && (d.homeWin == None <==> Winner !in d.capabilities)
            && (d.sets == None <==> SetScore !in d.capabilities)
            && (d.joint == None <==> PointHandicap !in d.capabilities && PointTotal !in d.capabilities)
  {
    var capable := set t | t in d.capabilities;
    if capable == Keys(d.provenance) {
      forall t: Target
        ensures t in d.capabilities <==> exists e :: e in d.provenance && e.target == t
      {
        assert t in capable <==> t in Keys(d.provenance);
      }
    }
  }

  /** Two statistical targets of one document name the same upstream, by the same method, and the same set
      prediction if that method uses one. */
  lemma LineageInColumns(d: Document)
    requires EntriesOk(d)
    ensures OneLineage(d) <==>
            forall e, f ::
              (e in d.provenance && f in d.provenance
               && e.provenance.derivation in {IndependentSets, JointMarginalization}
               && f.provenance.derivation in {IndependentSets, JointMarginalization}) ==>
                && e.provenance.derivation == f.provenance.derivation && e.provenance.upstream == f.provenance.upstream
                && (e.provenance.derivation == JointMarginalization ==>
                      e.provenance.setSource == f.provenance.setSource)
  {
    hide SourceOk;
    forall e, f | e in d.provenance && f in d.provenance && Statistical(e.provenance) && Statistical(f.provenance)
      ensures LineagePresent(e.provenance) && LineagePresent(f.provenance)
      ensures LineageOf(e.provenance) == LineageOf(f.provenance) <==>
              && e.provenance.derivation == f.provenance.derivation && e.provenance.upstream == f.provenance.upstream
              && (e.provenance.derivation == JointMarginalization ==>
                    e.provenance.setSource == f.provenance.setSource)
    {
      assert EntryOk(d, e.provenance) && EntryOk(d, f.provenance);
      SameLineage(e.provenance, f.provenance);
    }
    forall e | e in d.provenance
      ensures Statistical(e.provenance) <==> e.provenance.derivation in {IndependentSets, JointMarginalization}
    {
    }
  }

  lemma SameLineage(p: Provenance, q: Provenance)
    requires Statistical(p) && Statistical(q) && LineagePresent(p) && LineagePresent(q)
    ensures LineageOf(p) == LineageOf(q) <==>
            && p.derivation == q.derivation && p.upstream == q.upstream
            && (p.derivation == JointMarginalization ==> p.setSource == q.setSource)
  {
  }

  /** The six outcomes in their order, each a probability, together one and the first three the winner's,
      up to a millionth. */
  lemma SetsInColumns(d: Document)
    requires d.sets.Some?
    ensures var s := d.sets.value;
            SetsOk(d) <==>
              && |s| == 6 && s[0].score == Home30 && s[1].score == Home31 && s[2].score == Home32
              && s[3].score == Away32 && s[4].score == Away31 && s[5].score == Away30
              && (forall i :: 0 <= i < 6 ==> 0.0 <= s[i].probability <= 1.0)
              && var home, away := s[0].probability + s[1].probability + s[2].probability,
                                   s[3].probability + s[4].probability + s[5].probability;
                 && -0.000001 <= home + away - 1.0 <= 0.000001
                 && d.homeWin.Some? && -0.000001 <= home - d.homeWin.value <= 0.000001
  {
    hide Sum;
    var s := d.sets.value;
    assert LabelsOf(s) == OUTCOME_ORDER <==>
              && |s| == 6 && s[0].score == Home30 && s[1].score == Home31 && s[2].score == Home32
              && s[3].score == Away32 && s[4].score == Away31 && s[5].score == Away30 by { LabelsInColumns(s); }
    if |s| == 6 {
      var p := ProbabilitiesOf(s);
      SumOfSix(p);
      hide OUTCOME_ORDER;
      assert (forall o :: o in s ==> IsProbability(o.probability)) <==>
             forall i :: 0 <= i < 6 ==> 0.0 <= s[i].probability <= 1.0;
    }
  }

  lemma LabelsInColumns(s: seq<Outcome>)
    ensures LabelsOf(s) == OUTCOME_ORDER <==>
            && |s| == 6 && s[0].score == Home30 && s[1].score == Home31 && s[2].score == Home32
            && s[3].score == Away32 && s[4].score == Away31 && s[5].score == Away30
  {
    var order := [Home30, Home31, Home32, Away32, Away31, Away30];
    assert |LabelsOf(s)| == |s|;
    if LabelsOf(s) == OUTCOME_ORDER {
      assert LabelsOf(s)[0] == order[0] && LabelsOf(s)[1] == order[1] && LabelsOf(s)[2] == order[2];
      assert LabelsOf(s)[3] == order[3] && LabelsOf(s)[4] == order[4] && LabelsOf(s)[5] == order[5];
    }
  }

  /** The joint reference is found under its own id, by the document's producer and of the targets' snapshot,
      and agrees with the winner and all six outcomes up to a millionth. */
  lemma JointInColumns(d: Document, context: Context)
    requires d.joint.Some? && SetsOk(d) && OneSnapshot(d, context)
    ensures JointOk(d, context) <==>
            && context.hasResolver && context.resolve(d.joint.value).Some?
            && var m := context.resolve(d.joint.value).value;
               && m.id == d.joint.value && m.producer == d.producer
               && (context.snapshot.Some? || d.provenance != [])
               && (context.snapshot.Some? ==> m.snapshot == context.snapshot.value)
               && (forall e :: e in d.provenance ==> m.snapshot == e.provenance.snapshot)
               && d.homeWin.Some? && -0.000001 <= m.homeWin - d.homeWin.value <= 0.000001
               && d.sets.Some? && |m.sets| == 6 && |d.sets.value| == 6
               && forall i :: 0 <= i < 6 ==> -0.000001 <= m.sets[i] - d.sets.value[i].probability <= 0.000001
  {
    hide SetsOk;
    if d.provenance != [] {
      assert d.provenance[0] in d.provenance;
    }
  }

  // ---- What acceptance gives ----

  /** A joint marginalization carries the set prediction's lineage and an independent one does not, so no
      accepted document has both. */
  lemma OneStatisticalMethod(d: Document, context: Context, e: Entry, f: Entry)
    requires Accepted(d, context) && e in d.provenance && f in d.provenance
    requires Statistical(e.provenance) && Statistical(f.provenance)
    ensures e.provenance.derivation == f.provenance.derivation && e.provenance.upstream == f.provenance.upstream
  {
    assert EntryOk(d, e.provenance) && EntryOk(d, f.provenance);
    assert LineageOf(e.provenance) == LineageOf(f.provenance);
  }

  /** A joint distribution an accepted document refers to was made from the snapshot of every target. */
  lemma JointSharesSnapshot(d: Document, context: Context, e: Entry)
    requires Accepted(d, context) && d.joint.Some? && e in d.provenance
    ensures context.resolve(d.joint.value).value.snapshot == e.provenance.snapshot
  {
    assert d.provenance[0] in d.provenance;
  }

  lemma SumOfThree(s: seq<real>, rest: real)
    requires |s| >= 3 && Sum(s[3..]) == rest
    ensures Sum(s) == s[0] + s[1] + s[2] + rest
  {
    assert s[1..][1..] == s[2..] && s[2..][1..] == s[3..];
    assert Sum(s[2..]) == s[2] + rest;
    assert Sum(s[1..]) == s[1] + Sum(s[2..]);
  }

  lemma SumOfSix(s: seq<real>)
    requires |s| == 6
    ensures Sum(s) == s[0] + s[1] + s[2] + s[3] + s[4] + s[5]
    ensures Sum(s[..3]) == s[0] + s[1] + s[2] && Sum(s[3..]) == s[3] + s[4] + s[5]
  {
    SumOfThree(s[..3], 0.0);
    SumOfThree(s[3..], 0.0);
    SumOfThree(s, Sum(s[3..]));
  }

  /** The away outcomes of an accepted set distribution have the probability of an away win, up to twice
      the tolerance. */
  lemma AwayMarginal(d: Document, context: Context)
    requires Accepted(d, context) && d.sets.Some?
    ensures Distance(Sum(ProbabilitiesOf(d.sets.value)[3..]), 1.0 - d.homeWin.value) <= 2.0 * TOLERANCE
  {
    SixOutcomes(d);
    SumOfSix(ProbabilitiesOf(d.sets.value));
  }

  /** The stored joint distribution was never summed itself: what the comparisons leave it is a mass within
      seven tolerances of one and a home marginal within five of its own stored winner. */
  lemma JointMass(d: Document, context: Context)
    requires Accepted(d, context) && d.joint.Some?
    ensures var m := context.resolve(d.joint.value).value;
            && Distance(Sum(m.sets), 1.0) <= 7.0 * TOLERANCE
            && Distance(Sum(m.sets[..3]), m.homeWin) <= 5.0 * TOLERANCE
  {
    hide PartsAgree, EntriesOk, OneSnapshot, OneLineage, Sum;
    var m := context.resolve(d.joint.value).value;
    SixOutcomes(d);
    var p := ProbabilitiesOf(d.sets.value);
    SumOfSix(p);
    SumOfSix(m.sets);
    assert forall i :: 0 <= i < 6 ==> Close(m.sets[i], p[i]);
    FiniteSteps(p, m.sets, d.homeWin.value, m.homeWin);
  }

  lemma FiniteSteps(p: seq<real>, q: seq<real>, winner: real, stored: real)
    requires |p| == 6 && |q| == 6 && forall i :: 0 <= i < 6 ==> Close(q[i], p[i])
    requires Close(p[0] + p[1] + p[2] + p[3] + p[4] + p[5], 1.0) && Close(p[0] + p[1] + p[2], winner) &&
             Close(stored, winner)
    ensures Distance(q[0] + q[1] + q[2] + q[3] + q[4] + q[5], 1.0) <= 7.0 * TOLERANCE
    ensures Distance(q[0] + q[1] + q[2], stored) <= 5.0 * TOLERANCE
  {
    assert Close(q[0], p[0]) && Close(q[1], p[1]) && Close(q[2], p[2]);
    assert Close(q[3], p[3]) && Close(q[4], p[4]) && Close(q[5], p[5]);
  }
}
