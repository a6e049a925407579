/**
 * The first pass of the build script (utils/parse-lcsh-and-create-db.py:126-245):
 * one streaming loop over the RDF triples that dispatches on the suffix of
 * the predicate and updates the term store record by record.
 *
 * `Step` is what one iteration does to the store; `BuildFold` is the whole
 * loop, where an exception raised by one iteration ends the pass and keeps
 * what the earlier iterations wrote.
 */
module Build {
  import opened Wrappers
  import opened Text
  import opened Lcsh

  /** Which branch of the dispatch a predicate takes; the first matching suffix wins. */
  datatype Kind = PrefLabel | AltLabel | Broader | Note | EditorialNote | TopicSubdivisions | Member | Other

  function KindOf(pred: string): Kind {
    if EndsWith(pred, "prefLabel") then PrefLabel
    else if EndsWith(pred, "altLabel") then AltLabel
    else if EndsWith(pred, "broader") then Broader
    else if EndsWith(pred, "core#note") then Note
    else if EndsWith(pred, "core#editorialNote") then EditorialNote
    else if EndsWith(pred, "collection_TopicSubdivisions") then TopicSubdivisions
    else if EndsWith(pred, "core#member") then Member
    else Other
  }

  /** The text that marks an editorial note as a validation record. */
  const ValidationText: string := "Record generated for validation purposes"

  /** Identifiers of children's subject headings, which the build skips. */
  predicate ChildrensId(id: string) {
    StartsWith(id, "sj")
  }

  /** A new note joined to the stored one: after a newline when the stored note is non-empty. */
  function JoinNote(stored: Option<string>, text: string): (r: string)
    ensures stored.Some? && stored.value != "" ==> r == stored.value + "\n" + text
    ensures stored.None? || stored.value == "" ==> r == text
  {
    if stored.Some? && stored.value != "" then stored.value + "\n" + text else text
  }

  /** `update_one` with `upsert=False`: change the record if there is one, else nothing. */
  function Update(m: Store, id: string, t: Term): Store {
    if id in m then m[id := t] else m
  }

  /**
   * One iteration of the triple loop: the new store, or the failure that
   * the iteration raised (a `find_one` that returned `None` and was indexed).
   */
  function Step(m: Store, t: Triple): Result<Store, Failure> {
    var id := GetId(t.subj);
    match KindOf(t.pred)
    case PrefLabel => Ok(OnPrefLabel(m, id, t.obj))
    case AltLabel => OnAltLabel(m, id, t.obj)
    case Broader => Ok(OnBroader(m, id, GetId(t.obj)))
    case Note => Ok(OnNote(m, id, Strip(t.obj)))
    case EditorialNote => OnEditorialNote(m, id, Strip(t.obj))
    case TopicSubdivisions => Ok(OnTopicSubdivision(m, id))
    case Member => Ok(OnMember(m, id, t.obj))
    case Other => Ok(m)
  }

  function OnPrefLabel(m: Store, id: string, text: string): Store {
    if ChildrensId(id) || id in m then m
    else m[id := NewTerm(id, text)]
  }

  function OnAltLabel(m: Store, id: string, text: string): Result<Store, Failure> {
    if text == "LL" || ChildrensId(id) then Ok(m)
    else if id !in m then Err(MissingRecord(id))
    else Ok(m[id := m[id].(altLabels := m[id].altLabels + [text])])
  }

  function OnBroader(m: Store, id: string, parent: string): Store {
    if ChildrensId(id) || ChildrensId(parent) || id !in m then m
    else m[id := m[id].(broader := m[id].broader + [parent])]
  }

  function OnNote(m: Store, id: string, text: string): Store {
    if ChildrensId(id) || id !in m then m
    else m[id := m[id].(note := Some(JoinNote(m[id].note, text)))]
  }

  function OnEditorialNote(m: Store, id: string, text: string): Result<Store, Failure> {
    if ChildrensId(id) then Ok(m)
    else if Contains(text, ValidationText) then
      Ok(if id in m then m[id := m[id].(validationRecord := true)] else m)
    else if id !in m then Err(MissingRecord(id))
    else Ok(m[id := m[id].(note := Some(JoinNote(m[id].note, text)))])
  }

  function OnTopicSubdivision(m: Store, id: string): Store {
    if ChildrensId(id) || id !in m then m
    else m[id := m[id].(topicSubdivision := true)]
  }

  function OnMember(m: Store, id: string, collection: string): Store {
    if !EndsWith(collection, "GenreFormSubdivisions") || ChildrensId(id) || id !in m then m
    else m[id := m[id].(genreForm := true)]
  }

  /** The whole first pass: iterations in stream order until one raises. */
  function BuildFold(m: Store, ts: seq<Triple>): PassResult
    decreases |ts|
  {
    if ts == [] then Done(m)
    else
      match Step(m, ts[0])
      case Err(f) => Aborted(m, f)
      case Ok(m') => BuildFold(m', ts[1..])
  }

  /** Continue a pass that has not aborted yet with more triples. */
  function Resume(r: PassResult, ts: seq<Triple>): PassResult {
    match r
    case Done(m) => BuildFold(m, ts)
    case Aborted(_, _) => r
  }

  // ---------------------------------------------------------------------
  // One triple

  /** A `prefLabel` for a new identifier inserts a fresh record under the text after the last '/'; nothing else changes. */
  lemma PrefLabelInserts(m: Store, t: Triple)
    requires KindOf(t.pred) == PrefLabel && !ChildrensId(GetId(t.subj)) && GetId(t.subj) !in m
    ensures Step(m, t).Ok?
    ensures var m' := Step(m, t).value; var id := GetId(t.subj);
      && m'.Keys == m.Keys + {id}
      && m'[id].id == id && m'[id].prefLabel == t.obj
      && m'[id].altLabels == [] && m'[id].broader == [] && m'[id].narrower == []
      && m'[id].topmost == Uncomputed && m'[id].note == None
      && forall k :: k in m ==> m'[k] == m[k]
  {
    assert Step(m, t) == Ok(OnPrefLabel(m, GetId(t.subj), t.obj));
  }

  /** A second `prefLabel` for an identifier that is already stored changes nothing: the first one wins. */
  lemma PrefLabelFirstWins(m: Store, t: Triple)
    requires KindOf(t.pred) == PrefLabel && GetId(t.subj) in m
    ensures Step(m, t) == Ok(m)
  {
    assert Step(m, t) == Ok(OnPrefLabel(m, GetId(t.subj), t.obj));
  }

  /** A triple about a children's subject heading never changes the store and never fails. */
  lemma ChildrensSubjectIgnored(m: Store, t: Triple)
    requires ChildrensId(GetId(t.subj))
    ensures Step(m, t) == Ok(m)
  {
  }

  /** A `broader` link to a children's subject heading is dropped. */
  lemma ChildrensParentIgnored(m: Store, t: Triple)
    requires KindOf(t.pred) == Broader && ChildrensId(GetId(t.obj))
    ensures Step(m, t) == Ok(m)
  {
    assert Step(m, t) == Ok(OnBroader(m, GetId(t.subj), GetId(t.obj)));
  }

  /** `altLabel`: "LL" is ignored, any other text goes to the end of the list, and nothing else changes. */
  lemma AltLabelAppends(m: Store, t: Triple)
    requires KindOf(t.pred) == AltLabel && !ChildrensId(GetId(t.subj)) && GetId(t.subj) in m
    ensures Step(m, t).Ok?
    ensures t.obj == "LL" ==> Step(m, t).value == m
    ensures t.obj != "LL" ==> var m' := Step(m, t).value; var id := GetId(t.subj);
      && m'.Keys == m.Keys
      && m'[id].altLabels == m[id].altLabels + [t.obj]
      && m'[id].(altLabels := m[id].altLabels) == m[id]
      && forall k :: k in m && k != id ==> m'[k] == m[k]
  {
    assert Step(m, t) == OnAltLabel(m, GetId(t.subj), t.obj);
  }

  /** `altLabel` for an identifier without a record raises, which ends the pass. */
  lemma AltLabelMissingFails(m: Store, t: Triple)
    requires KindOf(t.pred) == AltLabel && t.obj != "LL" && !ChildrensId(GetId(t.subj)) && GetId(t.subj) !in m
    ensures Step(m, t) == Err(MissingRecord(GetId(t.subj)))
    ensures forall rest :: BuildFold(m, [t] + rest) == Aborted(m, MissingRecord(GetId(t.subj)))
  {
    forall rest ensures BuildFold(m, [t] + rest) == Aborted(m, MissingRecord(GetId(t.subj))) {
      assert ([t] + rest)[0] == t;
    }
  }

  /**
   * The `broader` branch appends the parent's identifier to the subject's
   * list (a repeated link is kept twice); an absent subject is skipped.
   */
  lemma BroaderAppends(m: Store, id: string, parent: string)
    requires !ChildrensId(id) && !ChildrensId(parent)
    ensures id !in m ==> OnBroader(m, id, parent) == m
    ensures id in m ==> var m' := OnBroader(m, id, parent);
      && m'.Keys == m.Keys
      && m'[id].broader == m[id].broader + [parent]
      && |m'[id].broader| == |m[id].broader| + 1
      && m'[id].(broader := m[id].broader) == m[id]
      && forall k :: k in m && k != id ==> m'[k] == m[k]
  {
  }

  /** A triple whose predicate ends in `broader` takes the `broader` branch with the identifiers of both ends. */
  lemma BroaderDispatch(m: Store, t: Triple)
    requires KindOf(t.pred) == Broader
    ensures Step(m, t) == Ok(OnBroader(m, GetId(t.subj), GetId(t.obj)))
  {
    assert KindOf(t.pred) == Broader;
  }

  /**
   * `note` strips the text and joins it to a non-empty stored note with a
   * newline; an absent subject is skipped.
   */
  lemma NoteJoins(m: Store, t: Triple)
    requires KindOf(t.pred) == Note && !ChildrensId(GetId(t.subj))
    ensures Step(m, t).Ok?
    ensures GetId(t.subj) !in m ==> Step(m, t).value == m
    ensures GetId(t.subj) in m ==> var m' := Step(m, t).value; var id := GetId(t.subj);
      && m'.Keys == m.Keys
      && m'[id].note == Some(JoinNote(m[id].note, Strip(t.obj)))
      && m'[id].(note := m[id].note) == m[id]
      && forall k :: k in m && k != id ==> m'[k] == m[k]
  {
    assert Step(m, t) == Ok(OnNote(m, GetId(t.subj), Strip(t.obj)));
  }

  /**
   * `editorialNote`: the validation marker sets the flag (nothing when the
   * record is absent) and leaves the note alone; other text is joined to
   * the note like `note`, but an absent record raises.
   */
  lemma EditorialNoteCases(m: Store, t: Triple)
    requires KindOf(t.pred) == EditorialNote && !ChildrensId(GetId(t.subj))
    ensures var id := GetId(t.subj); Contains(Strip(t.obj), ValidationText) ==>
      && Step(m, t).Ok?
      && (id !in m ==> Step(m, t).value == m)
      && (id in m ==> Step(m, t).value == m[id := m[id].(validationRecord := true)])
    ensures var id := GetId(t.subj); !Contains(Strip(t.obj), ValidationText) ==>
      && (id !in m ==> Step(m, t) == Err(MissingRecord(id)))
      && (id in m ==> Step(m, t) == Ok(m[id := m[id].(note := Some(JoinNote(m[id].note, Strip(t.obj))))]))
  {
    assert Step(m, t) == OnEditorialNote(m, GetId(t.subj), Strip(t.obj));
  }

  /** The three flags are set with `upsert=False`: on an identifier without a record they change nothing. */
  lemma FlagsOnAbsentIds(m: Store, t: Triple)
    requires KindOf(t.pred) in {EditorialNote, TopicSubdivisions, Member}
    requires GetId(t.subj) !in m
    requires KindOf(t.pred) == EditorialNote ==> Contains(Strip(t.obj), ValidationText)
    ensures Step(m, t) == Ok(m)
  {
  }

  /** Only `altLabel` and non-validation `editorialNote` triples can fail, and only on an absent record. */
  lemma StepFailsOnlyOnMissing(m: Store, t: Triple)
    ensures Step(m, t).Err? ==>
      && KindOf(t.pred) in {AltLabel, EditorialNote}
      && Step(m, t).error == MissingRecord(GetId(t.subj))
      && GetId(t.subj) !in m
  {
    var id := GetId(t.subj);
    match KindOf(t.pred)
    case AltLabel =>
      assert Step(m, t) == OnAltLabel(m, id, t.obj);
    case EditorialNote =>
      assert Step(m, t) == OnEditorialNote(m, id, Strip(t.obj));
    case _ =>
      assert Step(m, t).Ok?;
  }

  // ---------------------------------------------------------------------
  // The whole stream

  /** The store as the first pass leaves it for the later passes. */
  predicate WellFormed(m: Store) {
    && KeysMatch(m)
    && (forall k :: k in m ==> !ChildrensId(k))
    && (forall k :: k in m ==> m[k].narrower == [] && m[k].topmost == Uncomputed)
  }

  /** A step keeps the store well formed, never removes a record and never changes a label. */
  lemma StepPreserves(m: Store, t: Triple)
    requires WellFormed(m) && Step(m, t).Ok?
    ensures Keeps(m, Step(m, t).value)
  {
    var id := GetId(t.subj);
    match KindOf(t.pred)
    case PrefLabel => PrefLabelKeeps(m, id, t.obj);
    case AltLabel => AltLabelKeeps(m, id, t.obj);
    case Broader => BroaderKeeps(m, id, GetId(t.obj));
    case Note => NoteKeeps(m, id, Strip(t.obj));
    case EditorialNote => EditorialNoteKeeps(m, id, Strip(t.obj));
    case TopicSubdivisions => FlagsKeep(m, id, t.obj);
    case Member => FlagsKeep(m, id, t.obj);
    case Other =>
  }

  /** `m'` is `m` after first-pass steps: well formed, no record lost, no label changed. */
  predicate Keeps(m: Store, m': Store) {
    && WellFormed(m')
    && m.Keys <= m'.Keys
    && forall k :: k in m ==> m'[k].prefLabel == m[k].prefLabel
  }

  lemma PrefLabelKeeps(m: Store, id: string, text: string)
    requires WellFormed(m)
    ensures Keeps(m, OnPrefLabel(m, id, text))
  {
  }

  lemma AltLabelKeeps(m: Store, id: string, text: string)
    requires WellFormed(m) && OnAltLabel(m, id, text).Ok?
    ensures Keeps(m, OnAltLabel(m, id, text).value)
  {
    if text != "LL" && !ChildrensId(id) {
      RecordUpdateKeeps(m, id, m[id].(altLabels := m[id].altLabels + [text]));
    }
  }

  lemma BroaderKeeps(m: Store, id: string, parent: string)
    requires WellFormed(m)
    ensures Keeps(m, OnBroader(m, id, parent))
  {
    if !ChildrensId(id) && !ChildrensId(parent) && id in m {
      RecordUpdateKeeps(m, id, m[id].(broader := m[id].broader + [parent]));
    }
  }

  lemma NoteKeeps(m: Store, id: string, text: string)
    requires WellFormed(m)
    ensures Keeps(m, OnNote(m, id, text))
  {
    if !ChildrensId(id) && id in m {
      RecordUpdateKeeps(m, id, m[id].(note := Some(JoinNote(m[id].note, text))));
    }
  }

  lemma EditorialNoteKeeps(m: Store, id: string, text: string)
    requires WellFormed(m) && OnEditorialNote(m, id, text).Ok?
    ensures Keeps(m, OnEditorialNote(m, id, text).value)
  {
    if !ChildrensId(id) && id in m {
      if Contains(text, ValidationText) {
        RecordUpdateKeeps(m, id, m[id].(validationRecord := true));
      } else {
        RecordUpdateKeeps(m, id, m[id].(note := Some(JoinNote(m[id].note, text))));
      }
    }
  }

  lemma FlagsKeep(m: Store, id: string, collection: string)
    requires WellFormed(m)
    ensures Keeps(m, OnTopicSubdivision(m, id)) && Keeps(m, OnMember(m, id, collection))
  {
    if !ChildrensId(id) && id in m {
      RecordUpdateKeeps(m, id, m[id].(topicSubdivision := true));
      RecordUpdateKeeps(m, id, m[id].(genreForm := true));
    }
  }

  /** Replacing a record by one with the same identifier, label, `narrower` and `topmost` keeps the store well formed. */
  lemma RecordUpdateKeeps(m: Store, id: string, t: Term)
    requires WellFormed(m) && id in m
    requires t.id == id && t.prefLabel == m[id].prefLabel && t.narrower == [] && t.topmost == Uncomputed
    ensures WellFormed(m[id := t]) && m.Keys == m[id := t].Keys
    ensures forall k :: k in m ==> m[id := t][k].prefLabel == m[k].prefLabel
  {
  }

  /**
   * Over a whole stream the first pass keeps the store well formed, and a
   * record, once inserted, keeps its identifier and its first label whether
   * the pass runs to the end or aborts.
   */
  lemma {:induction false} BuildPreserves(m: Store, ts: seq<Triple>)
    requires WellFormed(m)
    ensures Keeps(m, BuildFold(m, ts).terms)
    decreases |ts|
  {
    if ts != [] && Step(m, ts[0]).Ok? {
      var m' := Step(m, ts[0]).value;
      StepPreserves(m, ts[0]);
      BuildPreserves(m', ts[1..]);
    }
  }

  /** The pass is a stream fold: running `ts + us` is running `ts`, then `us` unless `ts` aborted. */
  lemma {:induction false} BuildSplit(m: Store, ts: seq<Triple>, us: seq<Triple>)
    ensures BuildFold(m, ts + us) == Resume(BuildFold(m, ts), us)
    decreases |ts|
  {
    if ts == [] {
      assert ts + us == us;
    } else {
      assert (ts + us)[0] == ts[0] && (ts + us)[1..] == ts[1..] + us;
      if Step(m, ts[0]).Ok? {
        BuildSplit(Step(m, ts[0]).value, ts[1..], us);
      }
    }
  }

  /** A successful step adds a record only for the subject of a `prefLabel` triple. */
  lemma StepKeys(m: Store, t: Triple)
    requires Step(m, t).Ok?
    ensures KindOf(t.pred) != PrefLabel ==> Step(m, t).value.Keys == m.Keys
    ensures Step(m, t).value.Keys <= m.Keys + {GetId(t.subj)}
  {
    var id := GetId(t.subj);
    match KindOf(t.pred)
    case PrefLabel =>
      assert Step(m, t).value == OnPrefLabel(m, id, t.obj);
    case AltLabel =>
      assert Step(m, t) == OnAltLabel(m, id, t.obj);
    case Broader =>
      assert Step(m, t).value == OnBroader(m, id, GetId(t.obj));
    case Note =>
      assert Step(m, t).value == OnNote(m, id, Strip(t.obj));
    case EditorialNote =>
      assert Step(m, t) == OnEditorialNote(m, id, Strip(t.obj));
    case TopicSubdivisions =>
      assert Step(m, t).value == OnTopicSubdivision(m, id);
    case Member =>
      assert Step(m, t).value == OnMember(m, id, t.obj);
    case Other =>
      assert Step(m, t).value == m;
  }

  /**
   * The pass relies on all `prefLabel` triples coming first: an `altLabel`
   * (other than "LL") for a term whose record is not in the store yet, and
   * whose `prefLabel` has not come earlier in the stream, aborts the pass.
   * Unless an earlier triple has already aborted it, the pass stops right
   * there, with the store the earlier triples left and the term's identifier.
   */
  lemma {:induction false} AltLabelBeforePrefLabelAborts(m: Store, ts: seq<Triple>, i: nat)
    requires i < |ts| && KindOf(ts[i].pred) == AltLabel && ts[i].obj != "LL"
    requires !ChildrensId(GetId(ts[i].subj)) && GetId(ts[i].subj) !in m
    requires forall j :: 0 <= j < i ==> !(KindOf(ts[j].pred) == PrefLabel && GetId(ts[j].subj) == GetId(ts[i].subj))
    ensures BuildFold(m, ts).Aborted?
    ensures BuildFold(m, ts[..i]).Done? ==>
      BuildFold(m, ts) == Aborted(BuildFold(m, ts[..i]).terms, MissingRecord(GetId(ts[i].subj)))
    decreases i
  {
    var id := GetId(ts[i].subj);
    var pre := ts[..i];
    if i == 0 {
      FoldFirst(m, ts);
      AltLabelStepFails(m, ts[0]);
      assert pre == [];
    } else {
      var r := Step(m, ts[0]);
      var rest := ts[1..];
      FoldFirst(m, ts);
      FoldFirst(m, pre);
      assert pre[0] == ts[0] && pre[1..] == rest[..i - 1];
      if r.Err? {
        assert BuildFold(m, ts) == Aborted(m, r.error);
        assert BuildFold(m, pre).Aborted?;
      } else {
        assert BuildFold(m, ts) == BuildFold(r.value, rest);
        assert BuildFold(m, pre) == BuildFold(r.value, rest[..i - 1]);
        PrefixStep(m, ts, i, r.value);
        AltLabelBeforePrefLabelAborts(r.value, rest, i - 1);
      }
    }
  }

  /** After a first step that succeeds, the rest of the stream meets the premises again. */
  lemma PrefixStep(m: Store, ts: seq<Triple>, i: nat, m': Store)
    requires 0 < i < |ts| && Step(m, ts[0]) == Ok(m')
    requires GetId(ts[i].subj) !in m
    requires forall j :: 0 <= j < i ==> !(KindOf(ts[j].pred) == PrefLabel && GetId(ts[j].subj) == GetId(ts[i].subj))
    ensures GetId(ts[1..][i - 1].subj) !in m' && ts[1..][i - 1] == ts[i]
    ensures forall j :: 0 <= j < i - 1 ==> !(KindOf(ts[1..][j].pred) == PrefLabel && GetId(ts[1..][j].subj) == GetId(ts[i].subj))
  {
    StepKeys(m, ts[0]);
    forall j | 0 <= j < i - 1
      ensures !(KindOf(ts[1..][j].pred) == PrefLabel && GetId(ts[1..][j].subj) == GetId(ts[i].subj))
    {
      assert ts[1..][j] == ts[j + 1];
    }
  }

  lemma AltLabelStepFails(m: Store, t: Triple)
    requires KindOf(t.pred) == AltLabel && t.obj != "LL" && !ChildrensId(GetId(t.subj)) && GetId(t.subj) !in m
    ensures Step(m, t) == Err(MissingRecord(GetId(t.subj)))
  {
  }

  /** The pass over a non-empty stream: the first step, then the rest on its store. */
  lemma FoldFirst(m: Store, ts: seq<Triple>)
    requires ts != []
    ensures Step(m, ts[0]).Err? ==> BuildFold(m, ts) == Aborted(m, Step(m, ts[0]).error)
    ensures Step(m, ts[0]).Ok? ==> BuildFold(m, ts) == BuildFold(Step(m, ts[0]).value, ts[1..])
  {
  }
}
