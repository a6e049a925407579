/**
 * The earlier four-pass builder (misc-scripts/failed-attempts/parse-lcsh.py).
 * The whole RDF model is walked four times: the first walk inserts a record
 * per `prefLabel`, the others attach alternate labels, broader ids and
 * narrower ids. Any exception ends all remaining walks. Records carry no
 * `topmost` or note, and `narrower` comes from explicit triples. The
 * collection is the field `terms` of the class `OldStore`.
 */
module OldParse {
  import opened Wrappers
  import opened Text
  import opened Lcsh

  /** The record `insert_one` creates (parse-lcsh.py:50-51). */
  datatype Record = Record(prefLabel: string, altLabels: seq<string>, broader: seq<string>, narrower: seq<string>)

  type Records = map<string, Record>

  /** Why a walk stopped: a second insert of an identifier, or a lookup of a missing one. */
  datatype Fault = Duplicate(id: string) | Missing(id: string)

  /** The four walks over the model. */
  datatype Pass = Labels | AltLabels | Broaders | Narrowers

  /** The store after a walk, and the fault that ended it, if any (earlier writes stay). */
  datatype Outcome = Finished(terms: Records) | Stopped(terms: Records, fault: Fault)

  function OutcomeOf(m: Records, raised: Option<Fault>): (r: Outcome)
    ensures r.terms == m && (r.Finished? <==> raised.None?)
  {
    if raised.None? then Finished(m) else Stopped(m, raised.value)
  }

  /** The predicate suffix each walk looks for. */
  function Suffix(p: Pass): string {
    match p
    case Labels => "prefLabel"
    case AltLabels => "altLabel"
    case Broaders => "broader"
    case Narrowers => "narrower"
  }

  /** The list an appending walk extends. */
  function Field(p: Pass, r: Record): seq<string> {
    if p == Broaders then r.broader else r.narrower
  }

  function WithField(p: Pass, r: Record, v: seq<string>): (r': Record)
    ensures r'.prefLabel == r.prefLabel && r'.altLabels == r.altLabels
    ensures p == Broaders ==> r'.broader == v && r'.narrower == r.narrower
    ensures p != Broaders ==> r'.narrower == v && r'.broader == r.broader
  {
    if p == Broaders then r.(broader := v) else r.(narrower := v)
  }

  /**
   * One triple of one walk. Labels: a `prefLabel` inserts a fresh record;
   * a second insert fails. AltLabels: the label `LL` is skipped; any other
   * is appended, and a missing record fails the lookup. Broaders and
   * Narrowers: the object's identifier is appended; a missing record is
   * reported and skipped.
   */
  function Step(p: Pass, m: Records, t: Triple): Result<Records, Fault> {
    if !EndsWith(t.pred, Suffix(p)) then Ok(m)
    else if p == Labels then Insert(m, GetId(t.subj), t.obj)
    else if p == AltLabels then AddAltLabel(m, GetId(t.subj), t.obj)
    else Ok(AppendTo(p, m, GetId(t.subj), GetId(t.obj)))
  }

  /** `insert_one` of a fresh record; the identifier is the key, so a second insert fails. */
  function Insert(m: Records, id: string, lbl: string): (r: Result<Records, Fault>)
    ensures id in m <==> r == Err(Duplicate(id))
    ensures id !in m ==> r == Ok(m[id := Record(lbl, [], [], [])])
  {
    if id in m then Err(Duplicate(id)) else Ok(m[id := Record(lbl, [], [], [])])
  }

  /** `LL` is skipped; another label is appended to a stored record; a missing record fails the lookup. */
  function AddAltLabel(m: Records, id: string, lbl: string): (r: Result<Records, Fault>)
    ensures lbl == "LL" ==> r == Ok(m)
    ensures lbl != "LL" ==> (r.Err? <==> id !in m) && (r.Err? ==> r.error == Missing(id))
    ensures lbl != "LL" && id in m ==> r == Ok(m[id := m[id].(altLabels := m[id].altLabels + [lbl])])
  {
    if lbl == "LL" then Ok(m)
    else if id !in m then Err(Missing(id))
    else Ok(m[id := m[id].(altLabels := m[id].altLabels + [lbl])])
  }

  /** A broader or narrower identifier is appended to a stored record; a missing record is skipped. */
  function AppendTo(p: Pass, m: Records, id: string, target: string): (r: Records)
    ensures r.Keys == m.Keys
    ensures id !in m ==> r == m
    ensures id in m ==> r == m[id := WithField(p, m[id], Field(p, m[id]) + [target])]
  {
    if id !in m then m else m[id := WithField(p, m[id], Field(p, m[id]) + [target])]
  }

  /** One walk over the whole model, stopping at the first fault. */
  function Walk(p: Pass, m: Records, ts: seq<Triple>): Outcome
    decreases |ts|
  {
    if ts == [] then Finished(m)
    else if Step(p, m, ts[0]).Err? then Stopped(m, Step(p, m, ts[0]).error)
    else Walk(p, Step(p, m, ts[0]).value, ts[1..])
  }

  /** The four walks in order; a fault in one skips the rest. */
  function Walks(m: Records, ts: seq<Triple>): Outcome {
    AndThen(Narrowers, AndThen(Broaders, AndThen(AltLabels, Walk(Labels, m, ts), ts), ts), ts)
  }

  function AndThen(p: Pass, o: Outcome, ts: seq<Triple>): Outcome {
    if o.Stopped? then o else Walk(p, o.terms, ts)
  }

  // ---------------------------------------------------------------------
  // What the walks collect

  /** The identifiers of the `prefLabel` subjects, in model order. */
  function LabelIds(ts: seq<Triple>): seq<string> {
    if ts == [] then []
    else (if EndsWith(ts[0].pred, "prefLabel") then [GetId(ts[0].subj)] else []) + LabelIds(ts[1..])
  }

  /** An alternate label the second walk attaches. */
  predicate IsAltLabel(t: Triple) {
    EndsWith(t.pred, "altLabel") && t.obj != "LL"
  }

  /** The alternate label that triple `t` attaches to identifier `k`, if any. */
  function AltValueOf(t: Triple, k: string): seq<string> {
    if IsAltLabel(t) && GetId(t.subj) == k then [t.obj] else []
  }

  /** The alternate labels, other than `LL`, given for identifier `k`, in model order. */
  function AltValues(ts: seq<Triple>, k: string): seq<string> {
    if ts == [] then [] else AltValueOf(ts[0], k) + AltValues(ts[1..], k)
  }

  /** The identifiers of the subjects that have an alternate label other than `LL`. */
  function AltIds(ts: seq<Triple>): seq<string> {
    if ts == [] then []
    else (if IsAltLabel(ts[0]) then [GetId(ts[0].subj)] else []) + AltIds(ts[1..])
  }

  /** The object identifier that triple `t` appends for subject `k`, if any. */
  function TargetOf(p: Pass, t: Triple, k: string): seq<string> {
    if EndsWith(t.pred, Suffix(p)) && GetId(t.subj) == k then [GetId(t.obj)] else []
  }

  /** The object identifiers that a walk appends for subject `k`, in model order. */
  function Targets(p: Pass, ts: seq<Triple>, k: string): seq<string> {
    if ts == [] then [] else TargetOf(p, ts[0], k) + Targets(p, ts[1..], k)
  }

  // ---------------------------------------------------------------------
  // Properties

  /** What one triple does in the second walk. */
  lemma StepAlt(m: Records, t: Triple)
    ensures Step(AltLabels, m, t) == if IsAltLabel(t) then AddAltLabel(m, GetId(t.subj), t.obj) else Ok(m)
  {
  }

  /** What one triple does in an appending walk. */
  lemma StepAppend(p: Pass, m: Records, t: Triple)
    requires p == Broaders || p == Narrowers
    ensures Step(p, m, t) == Ok(if EndsWith(t.pred, Suffix(p)) then AppendTo(p, m, GetId(t.subj), GetId(t.obj)) else m)
  {
  }

  /** Only the first walk can fail on a duplicate, only the second on a missing record; the last two never fail. */
  lemma {:induction false} WalkFaults(p: Pass, m: Records, ts: seq<Triple>)
    ensures Walk(p, m, ts).Stopped? && p != Labels ==> p == AltLabels && Walk(p, m, ts).fault.Missing?
    ensures Walk(p, m, ts).Stopped? && p == Labels ==> Walk(p, m, ts).fault.Duplicate?
    decreases |ts|
  {
    if ts != [] && Step(p, m, ts[0]).Ok? {
      WalkFaults(p, Step(p, m, ts[0]).value, ts[1..]);
    }
  }

  /** `m'` is `m` with a fresh record, lists empty, for each of `ids`. */
  predicate Adds(m: Records, m': Records, ids: seq<string>) {
    && m'.Keys == m.Keys + (set k | k in ids)
    && (forall k :: k in m ==> k in m' && m'[k] == m[k])
    && (forall k :: k in ids ==> k in m' && m'[k].altLabels == [] && m'[k].broader == [] && m'[k].narrower == [])
  }

  /**
   * The first walk runs to the end exactly when the `prefLabel`
   * identifiers are distinct and none is already stored.
   */
  lemma LabelsWalkFinishes(m: Records, ts: seq<Triple>)
    ensures Walk(Labels, m, ts).Finished? <==> NoDups(LabelIds(ts)) && forall k :: k in LabelIds(ts) ==> k !in m
  {
    LabelsWalkFresh(m, ts);
    FreshMeans(LabelIds(ts), m.Keys);
  }

  /** Each identifier of `ids` is new: not among `keys` nor among the identifiers before it. */
  predicate Fresh(ids: seq<string>, keys: set<string>) {
    ids == [] || (ids[0] !in keys && Fresh(ids[1..], keys + {ids[0]}))
  }

  lemma {:induction false} FreshMeans(ids: seq<string>, keys: set<string>)
    ensures Fresh(ids, keys) <==> NoDups(ids) && forall k :: k in ids ==> k !in keys
  {
    if ids != [] {
      var x, rest := ids[0], ids[1..];
      assert ids == [x] + rest;
      FreshMeans(rest, keys + {x});
      NoDupsCons(x, rest);
      assert forall k :: k in ids <==> k == x || k in rest;
    }
  }

  lemma {:induction false} LabelsWalkFresh(m: Records, ts: seq<Triple>)
    ensures Walk(Labels, m, ts).Finished? <==> Fresh(LabelIds(ts), m.Keys)
    decreases |ts|
  {
    if ts != [] {
      var t := ts[0];
      var id := GetId(t.subj);
      if EndsWith(t.pred, "prefLabel") && id !in m {
        var m1 := m[id := Record(t.obj, [], [], [])];
        LabelsWalkFresh(m1, ts[1..]);
        InsertStep(m, ts, m1);
      } else if EndsWith(t.pred, "prefLabel") {
        DuplicateStep(m, ts);
      } else {
        LabelsWalkFresh(m, ts[1..]);
        OtherStep(m, ts);
      }
    }
  }

  /** A first `prefLabel` for a new identifier: the walk goes on with one more key. */
  lemma InsertStep(m: Records, ts: seq<Triple>, m1: Records)
    requires ts != [] && EndsWith(ts[0].pred, "prefLabel") && GetId(ts[0].subj) !in m
    requires m1 == m[GetId(ts[0].subj) := Record(ts[0].obj, [], [], [])]
    requires Walk(Labels, m1, ts[1..]).Finished? <==> Fresh(LabelIds(ts[1..]), m1.Keys)
    ensures Walk(Labels, m, ts).Finished? <==> Fresh(LabelIds(ts), m.Keys)
  {
    var id := GetId(ts[0].subj);
    WalkStep(Labels, m, ts);
    assert Step(Labels, m, ts[0]) == Ok(m1);
    assert LabelIds(ts) == [id] + LabelIds(ts[1..]);
    assert LabelIds(ts)[0] == id && LabelIds(ts)[1..] == LabelIds(ts[1..]);
    assert m1.Keys == m.Keys + {id};
  }

  /** A `prefLabel` for a stored identifier stops the walk. */
  lemma DuplicateStep(m: Records, ts: seq<Triple>)
    requires ts != [] && EndsWith(ts[0].pred, "prefLabel") && GetId(ts[0].subj) in m
    ensures Walk(Labels, m, ts).Stopped? && !Fresh(LabelIds(ts), m.Keys)
  {
    var id := GetId(ts[0].subj);
    WalkStep(Labels, m, ts);
    assert Step(Labels, m, ts[0]) == Err(Duplicate(id));
    assert LabelIds(ts)[0] == id;
  }

  /** Any other triple leaves the first walk's store as it is. */
  lemma OtherStep(m: Records, ts: seq<Triple>)
    requires ts != [] && !EndsWith(ts[0].pred, "prefLabel")
    requires Walk(Labels, m, ts[1..]).Finished? <==> Fresh(LabelIds(ts[1..]), m.Keys)
    ensures Walk(Labels, m, ts).Finished? <==> Fresh(LabelIds(ts), m.Keys)
  {
    WalkStep(Labels, m, ts);
    assert Step(Labels, m, ts[0]) == Ok(m);
    assert LabelIds(ts) == LabelIds(ts[1..]);
  }

  /** When it runs to the end, the first walk adds exactly the label identifiers, each with empty lists. */
  lemma {:induction false} LabelsWalkAdds(m: Records, ts: seq<Triple>)
    requires Walk(Labels, m, ts).Finished?
    ensures Adds(m, Walk(Labels, m, ts).terms, LabelIds(ts))
    decreases |ts|
  {
    if ts != [] {
      var t := ts[0];
      var rest := LabelIds(ts[1..]);
      if EndsWith(t.pred, "prefLabel") {
        var id := GetId(t.subj);
        assert LabelIds(ts) == [id] + rest;
        var m1 := m[id := Record(t.obj, [], [], [])];
        assert Walk(Labels, m, ts) == Walk(Labels, m1, ts[1..]);
        LabelsWalkAdds(m1, ts[1..]);
        AddsCons(m, m1, Walk(Labels, m, ts).terms, id, t.obj, rest);
      } else {
        assert LabelIds(ts) == rest;
        LabelsWalkAdds(m, ts[1..]);
      }
    }
  }

  lemma AddsCons(m: Records, m1: Records, m': Records, id: string, lbl: string, ids: seq<string>)
    requires id !in m && m1 == m[id := Record(lbl, [], [], [])]
    requires Adds(m1, m', ids)
    ensures Adds(m, m', [id] + ids)
  {
    assert (set k | k in [id] + ids) == {id} + (set k | k in ids);
  }

  lemma NoDupsCons(x: string, s: seq<string>)
    ensures NoDups([x] + s) <==> x !in s && NoDups(s)
  {
    var xs := [x] + s;
    if x !in s && NoDups(s) {
      forall i, j | 0 <= i < j < |xs|
        ensures xs[i] != xs[j]
      {
        assert xs[j] == s[j - 1];
        if i > 0 {
          assert xs[i] == s[i - 1];
        }
      }
    }
    if NoDups(xs) {
      forall i, j | 0 <= i < j < |s|
        ensures s[i] != s[j]
      {
        assert xs[i + 1] == s[i] && xs[j + 1] == s[j];
      }
      forall j | 0 <= j < |s|
        ensures s[j] != x
      {
        assert xs[0] == x && xs[j + 1] == s[j];
      }
    }
  }

  /** The second walk runs to the end exactly when every subject it labels is stored. */
  lemma AltLabelsWalkFinishes(m: Records, ts: seq<Triple>)
    ensures Walk(AltLabels, m, ts).Finished? <==> forall k :: k in AltIds(ts) ==> k in m
    ensures Walk(AltLabels, m, ts).terms.Keys == m.Keys
  {
    AltLabelsWalkStored(m, ts);
    AllStoredMeans(AltIds(ts), m);
  }

  /** Every identifier of `ids` has a record, one after the other. */
  predicate AllStored(ids: seq<string>, m: Records) {
    ids == [] || (ids[0] in m && AllStored(ids[1..], m))
  }

  lemma {:induction false} AllStoredMeans(ids: seq<string>, m: Records)
    ensures AllStored(ids, m) <==> forall k :: k in ids ==> k in m
  {
    if ids != [] {
      AllStoredMeans(ids[1..], m);
      assert forall k :: k in ids <==> k == ids[0] || k in ids[1..];
    }
  }

  lemma {:induction false} AltLabelsWalkStored(m: Records, ts: seq<Triple>)
    ensures Walk(AltLabels, m, ts).Finished? <==> AllStored(AltIds(ts), m)
    ensures Walk(AltLabels, m, ts).terms.Keys == m.Keys
    decreases |ts|
  {
    if ts != [] {
      var t := ts[0];
      var id := GetId(t.subj);
      StepAlt(m, t);
      WalkStep(AltLabels, m, ts);
      if IsAltLabel(t) {
        assert AltIds(ts) == [id] + AltIds(ts[1..]);
        assert AltIds(ts)[0] == id && AltIds(ts)[1..] == AltIds(ts[1..]);
        if id in m {
          var m1 := Step(AltLabels, m, t).value;
          assert m1.Keys == m.Keys;
          AltLabelsWalkStored(m1, ts[1..]);
          AllStoredKeys(AltIds(ts[1..]), m, m1);
        }
      } else {
        assert AltIds(ts) == AltIds(ts[1..]);
        AltLabelsWalkStored(m, ts[1..]);
      }
    }
  }

  lemma {:induction false} AllStoredKeys(ids: seq<string>, m: Records, m': Records)
    requires m.Keys == m'.Keys
    ensures AllStored(ids, m) == AllStored(ids, m')
  {
    if ids != [] {
      assert (ids[0] in m) == (ids[0] in m');
      AllStoredKeys(ids[1..], m, m');
    }
  }

  /** A walk over a non-empty model stops at a faulty first triple and otherwise goes on from that triple's store. */
  lemma WalkStep(p: Pass, m: Records, ts: seq<Triple>)
    requires ts != []
    ensures Step(p, m, ts[0]).Err? ==> Walk(p, m, ts) == Stopped(m, Step(p, m, ts[0]).error)
    ensures Step(p, m, ts[0]).Ok? ==> Walk(p, m, ts) == Walk(p, Step(p, m, ts[0]).value, ts[1..])
  {
  }

  /**
   * When it runs to the end, the second walk leaves every stored record
   * with its alternate labels, `LL` left out, appended in model order, and
   * nothing else changed.
   */
  lemma AltLabelsWalkAppends(m: Records, ts: seq<Triple>)
    requires Walk(AltLabels, m, ts).Finished?
    ensures Walk(AltLabels, m, ts).terms.Keys == m.Keys
    ensures forall k :: k in m ==> Walk(AltLabels, m, ts).terms[k] == m[k].(altLabels := m[k].altLabels + AltValues(ts, k))
  {
    AltLabelsWalkFinishes(m, ts);
    forall k | k in m
      ensures Walk(AltLabels, m, ts).terms[k] == m[k].(altLabels := m[k].altLabels + AltValues(ts, k))
    {
      AltLabelsWalkAt(m, ts, k);
    }
  }

  lemma {:induction false} AltLabelsWalkAt(m: Records, ts: seq<Triple>, k: string)
    requires k in m && Walk(AltLabels, m, ts).Finished?
    ensures k in Walk(AltLabels, m, ts).terms
    ensures Walk(AltLabels, m, ts).terms[k] == m[k].(altLabels := m[k].altLabels + AltValues(ts, k))
    decreases |ts|
  {
    if ts == [] {
      assert m[k].(altLabels := m[k].altLabels + []) == m[k];
    } else {
      var t := ts[0];
      WalkStep(AltLabels, m, ts);
      var m1 := Step(AltLabels, m, t).value;
      AltValuesStep(m, t, k);
      AltLabelsWalkAt(m1, ts[1..], k);
      assert AltValues(ts, k) == AltValueOf(t, k) + AltValues(ts[1..], k);
      AltsCompose(m[k], m1[k], AltValueOf(t, k), AltValues(ts[1..], k));
    }
  }

  lemma AltsCompose(r: Record, r1: Record, a: seq<string>, b: seq<string>)
    requires r1 == r.(altLabels := r.altLabels + a)
    ensures r1.(altLabels := r1.altLabels + b) == r.(altLabels := r.altLabels + (a + b))
  {
    assert r.altLabels + a + b == r.altLabels + (a + b);
  }

  /** One step of the second walk appends that triple's label to record `k`, if any. */
  lemma AltValuesStep(m: Records, t: Triple, k: string)
    requires k in m && Step(AltLabels, m, t).Ok?
    ensures k in Step(AltLabels, m, t).value
    ensures Step(AltLabels, m, t).value[k] == m[k].(altLabels := m[k].altLabels + AltValueOf(t, k))
  {
    StepAlt(m, t);
    if !IsAltLabel(t) || GetId(t.subj) != k {
      assert AltValueOf(t, k) == [];
      assert m[k].altLabels + [] == m[k].altLabels;
    }
  }

  /**
   * The broader and narrower walks always run to the end, keep the
   * identifiers and every other field, and append to each stored record
   * the object identifiers of its triples in model order, duplicates kept.
   */
  lemma AppendWalk(p: Pass, m: Records, ts: seq<Triple>)
    requires p == Broaders || p == Narrowers
    ensures Walk(p, m, ts).Finished?
    ensures Walk(p, m, ts).terms.Keys == m.Keys
    ensures forall k :: k in m ==> Walk(p, m, ts).terms[k] == WithField(p, m[k], Field(p, m[k]) + Targets(p, ts, k))
  {
    AppendWalkKeys(p, m, ts);
    forall k | k in m
      ensures Walk(p, m, ts).terms[k] == WithField(p, m[k], Field(p, m[k]) + Targets(p, ts, k))
    {
      AppendWalkAt(p, m, ts, k);
    }
  }

  lemma {:induction false} AppendWalkKeys(p: Pass, m: Records, ts: seq<Triple>)
    requires p == Broaders || p == Narrowers
    ensures Walk(p, m, ts).Finished?
    ensures Walk(p, m, ts).terms.Keys == m.Keys
    decreases |ts|
  {
    if ts != [] {
      AppendStepKeys(p, m, ts[0]);
      WalkCons(p, m, ts);
      AppendWalkKeys(p, Step(p, m, ts[0]).value, ts[1..]);
    }
  }

  /** One step of an appending walk never fails and keeps the keys. */
  lemma AppendStepKeys(p: Pass, m: Records, t: Triple)
    requires p == Broaders || p == Narrowers
    ensures Step(p, m, t).Ok? && Step(p, m, t).value.Keys == m.Keys
  {
    if EndsWith(t.pred, Suffix(p)) {
      assert Step(p, m, t) == Ok(AppendTo(p, m, GetId(t.subj), GetId(t.obj)));
    }
  }

  lemma {:induction false} AppendWalkAt(p: Pass, m: Records, ts: seq<Triple>, k: string)
    requires p == Broaders || p == Narrowers
    requires k in m
    ensures Walk(p, m, ts).Finished? && k in Walk(p, m, ts).terms
    ensures Walk(p, m, ts).terms[k] == WithField(p, m[k], Field(p, m[k]) + Targets(p, ts, k))
    decreases |ts|
  {
    if ts == [] {
      SameField(p, m[k]);
    } else {
      var t := ts[0];
      TargetsStep(p, m, t, k);
      var m1 := Step(p, m, t).value;
      WalkCons(p, m, ts);
      assert Targets(p, ts, k) == TargetOf(p, t, k) + Targets(p, ts[1..], k);
      AppendWalkAt(p, m1, ts[1..], k);
      FieldsCompose(p, m[k], m1[k], TargetOf(p, t, k), Targets(p, ts[1..], k));
    }
  }

  /** A walk that does not fail on its first triple goes on from the store that triple leaves. */
  lemma WalkCons(p: Pass, m: Records, ts: seq<Triple>)
    requires ts != [] && Step(p, m, ts[0]).Ok?
    ensures Walk(p, m, ts) == Walk(p, Step(p, m, ts[0]).value, ts[1..])
  {
  }

  lemma FieldsCompose(p: Pass, r: Record, r1: Record, a: seq<string>, b: seq<string>)
    requires r1 == WithField(p, r, Field(p, r) + a)
    ensures WithField(p, r1, Field(p, r1) + b) == WithField(p, r, Field(p, r) + (a + b))
  {
    assert Field(p, r1) == Field(p, r) + a;
    assert Field(p, r) + a + b == Field(p, r) + (a + b);
  }

  /** One step of an appending walk extends the list of record `k` by that triple's target, if any. */
  lemma TargetsStep(p: Pass, m: Records, t: Triple, k: string)
    requires p == Broaders || p == Narrowers
    requires k in m
    ensures Step(p, m, t).Ok? && k in Step(p, m, t).value
    ensures Step(p, m, t).value[k] == WithField(p, m[k], Field(p, m[k]) + TargetOf(p, t, k))
  {
    StepAppend(p, m, t);
    if EndsWith(t.pred, Suffix(p)) {
      AppendToAt(p, m, GetId(t.subj), GetId(t.obj), k);
    } else {
      assert TargetOf(p, t, k) == [];
      SameField(p, m[k]);
    }
  }

  lemma AppendToAt(p: Pass, m: Records, id: string, target: string, k: string)
    requires k in m
    ensures k in AppendTo(p, m, id, target)
    ensures AppendTo(p, m, id, target)[k] == WithField(p, m[k], Field(p, m[k]) + (if id == k then [target] else []))
  {
    if id != k {
      SameField(p, m[k]);
    }
  }

  lemma SameField(p: Pass, r: Record)
    ensures WithField(p, r, Field(p, r) + []) == r
  {
    assert Field(p, r) + [] == Field(p, r);
  }

  /**
   * Because every walk covers the whole model, the triple order does not
   * decide whether the build runs through: it does exactly when the
   * label identifiers are distinct and new, and every alternately
   * labelled subject has a `prefLabel` or was stored before.
   */
  lemma WalksFinish(m: Records, ts: seq<Triple>)
    ensures Walks(m, ts).Finished? <==>
      && NoDups(LabelIds(ts)) && (forall k :: k in LabelIds(ts) ==> k !in m)
      && (forall k :: k in AltIds(ts) ==> k in m || k in LabelIds(ts))
  {
    LabelsWalkFinishes(m, ts);
    var o1 := Walk(Labels, m, ts);
    if o1.Finished? {
      LabelsWalkAdds(m, ts);
      AltLabelsWalkFinishes(o1.terms, ts);
      var o2 := Walk(AltLabels, o1.terms, ts);
      if o2.Finished? {
        AppendWalk(Broaders, o2.terms, ts);
        AppendWalk(Narrowers, Walk(Broaders, o2.terms, ts).terms, ts);
      }
    }
  }

  /** Record `k` of `m'` holds the given lists extended by what the model gives for `k`. */
  predicate HasLists(m': Records, k: string, alt: seq<string>, br: seq<string>, nr: seq<string>, ts: seq<Triple>) {
    && k in m'
    && m'[k].altLabels == alt + AltValues(ts, k)
    && m'[k].broader == br + Targets(Broaders, ts, k)
    && m'[k].narrower == nr + Targets(Narrowers, ts, k)
  }

  /**
   * After a complete build every `prefLabel` identifier has a record whose
   * lists hold, in model order, exactly its alternate labels (without
   * `LL`), its broader identifiers and its narrower identifiers, and the
   * records stored before are extended the same way.
   */
  lemma WalksBuild(m: Records, ts: seq<Triple>)
    requires Walks(m, ts).Finished?
    ensures Walks(m, ts).terms.Keys == m.Keys + (set k | k in LabelIds(ts))
    ensures forall k :: k in LabelIds(ts) ==> HasLists(Walks(m, ts).terms, k, [], [], [], ts)
    ensures forall k :: k in m ==> HasLists(Walks(m, ts).terms, k, m[k].altLabels, m[k].broader, m[k].narrower, ts)
    ensures forall k :: k in m ==> Walks(m, ts).terms[k].prefLabel == m[k].prefLabel
  {
    var m1 := Walk(Labels, m, ts).terms;
    LabelsWalkAdds(m, ts);
    AltLabelsWalkAppends(m1, ts);
    var m2 := Walk(AltLabels, m1, ts).terms;
    AppendWalk(Broaders, m2, ts);
    var m3 := Walk(Broaders, m2, ts).terms;
    AppendWalk(Narrowers, m3, ts);
    forall k | k in LabelIds(ts)
      ensures HasLists(Walks(m, ts).terms, k, [], [], [], ts)
    {
      assert [] + AltValues(ts, k) == AltValues(ts, k);
      assert [] + Targets(Broaders, ts, k) == Targets(Broaders, ts, k);
      assert [] + Targets(Narrowers, ts, k) == Targets(Narrowers, ts, k);
    }
  }

  // ---------------------------------------------------------------------
  // The collection

  /** The `terms` collection the four walks update. */
  class OldStore {
    var terms: Records

    constructor (m: Records)
      ensures terms == m
    {
      terms := m;
    }

    /** One walk over the model (parse-lcsh.py:45-54, 59-71, 76-90, 95-109). */
    method RunWalk(p: Pass, ts: seq<Triple>) returns (raised: Option<Fault>)
      modifies this
      ensures OutcomeOf(terms, raised) == Walk(p, old(terms), ts)
    {
      var i := 0;
      while i < |ts|
        invariant 0 <= i <= |ts|
        invariant Walk(p, old(terms), ts) == Walk(p, terms, ts[i..])
      {
        assert ts[i..][0] == ts[i] && ts[i..][1..] == ts[i + 1..];
        var t := ts[i];
        if EndsWith(t.pred, Suffix(p)) {
          var id := GetId(t.subj);
          if p == Labels {
            if id in terms {
              return Some(Duplicate(id));
            }
            terms := terms[id := Record(t.obj, [], [], [])];
          } else if p == AltLabels {
            if t.obj != "LL" {
              if id !in terms {
                return Some(Missing(id));
              }
              var entry := terms[id];
              terms := terms[id := entry.(altLabels := entry.altLabels + [t.obj])];
            }
          } else if id in terms {
            var entry := terms[id];
            terms := terms[id := WithField(p, entry, Field(p, entry) + [GetId(t.obj)])];
          }
        }
        i := i + 1;
      }
      raised := None;
    }

    /** The four walks under one handler: the first fault ends them all (parse-lcsh.py:44-114). */
    method Run(ts: seq<Triple>) returns (raised: Option<Fault>)
      modifies this
      ensures OutcomeOf(terms, raised) == Walks(old(terms), ts)
    {
      raised := RunWalk(Labels, ts);
      if raised.Some? {
        return;
      }
      raised := RunWalk(AltLabels, ts);
      if raised.Some? {
        return;
      }
      raised := RunWalk(Broaders, ts);
      if raised.Some? {
        return;
      }
      raised := RunWalk(Narrowers, ts);
    }
  }
}
