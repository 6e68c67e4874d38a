/** The progress upsert: `updateProgress(childId, subject, skillArea,
    masteryLevel)` looks up the child's progress record for the skill and
    either overwrites its mastery (counting one more practice) or creates the
    record with a practice count of one.

    The remote `progress_c` table is the field `records` of a
    `ProgressTable`. The store's replies are parameters: `read` says whether
    the lookup `getBySubject(childId, subject)` delivered the rows, `write`
    what the update or create call answered, `now` is the clock and `newId`
    the id the store gives a created row. The child id is taken already
    converted with `toString()`. */
module ProgressService {
  import opened Records

  /** `(child_id_c, subject_c, skill_area_c)`, the key of a progress record. */
  datatype Key = Key(childId: string, subject: string, skillArea: string)

  function KeyOf(r: ProgressRecord): Key
  {
    Key(r.childId, r.subject, r.skillArea)
  }

  /** The `find` test of the lookup. */
  predicate Matches(r: ProgressRecord, k: Key)
  {
    r.childId == k.childId && r.subject == k.subject && r.skillArea == k.skillArea
  }

  /** The table holds at most one record per key. */
  predicate KeysUnique(t: seq<ProgressRecord>)
  {
    forall i, j :: 0 <= i < j < |t| ==> KeyOf(t[i]) != KeyOf(t[j])
  }

  /** Outcome of the lookup. `ReadFailed` covers an unsuccessful response, an
      exception and a response without data: in each case `getBySubject`
      hands back the empty list. */
  datatype ReadReply = ReadOk | ReadFailed

  /** Answer of `updateRecord` / `createRecord`: `Rejected` is
      `!response.success`; `Threw` an exception; `Accepted(results)` a
      successful response whose per-record result is `results` (`None` when
      the response carries no `results`). */
  datatype WriteReply = Rejected | Threw | Accepted(results: Option<bool>)

  /** The store applied the write. */
  predicate Applied(w: WriteReply)
  {
    w.Accepted? && w.results != Some(false)
  }

  /** `updateProgress` returns the saved record rather than `null`. */
  predicate Reported(w: WriteReply)
  {
    w == Accepted(Some(true))
  }

  /** `existingProgress.find(...)`: the index of the first record with the key. */
  function FirstMatch(t: seq<ProgressRecord>, k: Key): (r: Option<nat>)
    ensures r.Some? ==> r.value < |t| && Matches(t[r.value], k)
    ensures r.Some? ==> forall j :: 0 <= j < r.value ==> !Matches(t[j], k)
    ensures r.None? <==> forall j :: 0 <= j < |t| ==> !Matches(t[j], k)
  {
    if t == [] then None
    else if Matches(t[0], k) then Some(0)
    else
      match FirstMatch(t[1..], k)
      case None => assert forall j :: 1 <= j < |t| ==> t[j] == t[1..][j - 1]; None
      case Some(i) => assert forall j :: 1 <= j < i + 1 ==> t[j] == t[1..][j - 1]; Some(i + 1)
  }

  /** `practice_count_c || 0`. */
  function PracticeCount(r: ProgressRecord): nat
  {
    match r.practiceCount
    case Some(n) => n
    case None => 0
  }

  /** The update written to an existing record. */
  function Updated(r: ProgressRecord, masteryLevel: int, now: Millis): ProgressRecord
  {
    r.(masteryLevel := masteryLevel, practiceCount := Some(PracticeCount(r) + 1), lastPracticed := now)
  }

  /** The record created when none matches. */
  function NewRecord(k: Key, masteryLevel: int, now: Millis, newId: int): ProgressRecord
  {
    ProgressRecord(newId, k.skillArea + " progress for child " + k.childId,
                   k.childId, k.subject, k.skillArea, masteryLevel, Some(1), now)
  }

  /** What the lookup finds: a failed read finds nothing. */
  function Lookup(t: seq<ProgressRecord>, k: Key, read: ReadReply): Option<nat>
  {
    if read == ReadOk then FirstMatch(t, k) else None
  }

  /** The record the call writes. */
  function Written(t: seq<ProgressRecord>, k: Key, masteryLevel: int, now: Millis, newId: int, read: ReadReply): ProgressRecord
  {
    match Lookup(t, k, read)
    case Some(i) => Updated(t[i], masteryLevel, now)
    case None => NewRecord(k, masteryLevel, now, newId)
  }

  /** The table after an applied write: at most one record longer, and
      holding a record with the key and the new mastery. */
  function Upserted(t: seq<ProgressRecord>, k: Key, masteryLevel: int, now: Millis, newId: int, read: ReadReply): (u: seq<ProgressRecord>)
    ensures |t| <= |u| <= |t| + 1
    ensures exists i :: 0 <= i < |u| && KeyOf(u[i]) == k && u[i].masteryLevel == masteryLevel
  {
    var w := Written(t, k, masteryLevel, now, newId, read);
    match Lookup(t, k, read)
    case Some(i) =>
      assert KeyOf(t[i := w][i]) == k;
      t[i := w]
    case None =>
      assert (t + [w])[|t|] == w;
      t + [w]
  }

  /** With a match, only the first matching record changes: its mastery is
      overwritten, its count goes up by one, its time becomes `now`, and its
      id, name and key stay. */
  lemma UpsertUpdatesFirstMatch(t: seq<ProgressRecord>, k: Key, masteryLevel: int, now: Millis, newId: int, i: nat)
    requires i < |t| && Matches(t[i], k)
    requires forall j :: 0 <= j < i ==> !Matches(t[j], k)
    ensures var u := Upserted(t, k, masteryLevel, now, newId, ReadOk);
      && |u| == |t|
      && (forall j :: 0 <= j < |t| && j != i ==> u[j] == t[j])
      && u[i].masteryLevel == masteryLevel
      && u[i].practiceCount == Some(PracticeCount(t[i]) + 1)
      && u[i].lastPracticed == now
      && u[i].id == t[i].id && u[i].name == t[i].name && KeyOf(u[i]) == k
  {
    assert FirstMatch(t, k) == Some(i);
  }

  /** Without a match, or when the lookup failed, exactly one record is
      appended: the given key and mastery, practice count one. */
  lemma UpsertCreates(t: seq<ProgressRecord>, k: Key, masteryLevel: int, now: Millis, newId: int, read: ReadReply)
    requires read == ReadFailed || forall j :: 0 <= j < |t| ==> !Matches(t[j], k)
    ensures var u := Upserted(t, k, masteryLevel, now, newId, read);
      && |u| == |t| + 1 && u[..|t|] == t
      && KeyOf(u[|t|]) == k && u[|t|].masteryLevel == masteryLevel
      && u[|t|].practiceCount == Some(1) && u[|t|].id == newId
  {
    assert Lookup(t, k, read) == None;
    var u := Upserted(t, k, masteryLevel, now, newId, read);
    assert u == t + [NewRecord(k, masteryLevel, now, newId)];
    assert u[..|t|] == t;
  }

  /** After a successful lookup the table still holds at most one record per
      key: a record is created only when none has the key. */
  lemma UpsertKeepsKeysUnique(t: seq<ProgressRecord>, k: Key, masteryLevel: int, now: Millis, newId: int)
    requires KeysUnique(t)
    ensures KeysUnique(Upserted(t, k, masteryLevel, now, newId, ReadOk))
  {
    var u := Upserted(t, k, masteryLevel, now, newId, ReadOk);
    match FirstMatch(t, k)
    case Some(i) =>
      assert forall j :: 0 <= j < |u| ==> KeyOf(u[j]) == KeyOf(t[j]);
    case None =>
      assert forall j :: 0 <= j < |t| ==> u[j] == t[j] && KeyOf(t[j]) != k;
  }

  /** Two calls on a key the table does not hold: the first creates the
      record with count one, the second updates that record to count two with
      the second mastery, and the table grows by exactly one record. */
  lemma UpsertTwiceOnFreshKey(t: seq<ProgressRecord>, k: Key, m1: int, m2: int, now1: Millis, now2: Millis, id1: int, id2: int)
    requires forall j :: 0 <= j < |t| ==> !Matches(t[j], k)
    ensures var u1 := Upserted(t, k, m1, now1, id1, ReadOk);
      var u2 := Upserted(u1, k, m2, now2, id2, ReadOk);
      && u1[|t|].practiceCount == Some(1) && u1[|t|].masteryLevel == m1
      && |u2| == |t| + 1 && u2[..|t|] == t
      && KeyOf(u2[|t|]) == k && u2[|t|].id == id1
      && u2[|t|].practiceCount == Some(2) && u2[|t|].masteryLevel == m2
  {
    UpsertCreates(t, k, m1, now1, id1, ReadOk);
    var u1 := Upserted(t, k, m1, now1, id1, ReadOk);
    assert forall j :: 0 <= j < |t| ==> u1[j] == t[j];
    UpsertUpdatesFirstMatch(u1, k, m2, now2, id2, |t|);
    var u2 := Upserted(u1, k, m2, now2, id2, ReadOk);
    assert u2[..|t|] == t;
  }

  /** A failed lookup falls through to the create path, so a key that is
      already stored gets a second record. */
  lemma FailedLookupDuplicatesKey(r: ProgressRecord, masteryLevel: int, now: Millis, newId: int)
    ensures KeysUnique([r])
    ensures !KeysUnique(Upserted([r], KeyOf(r), masteryLevel, now, newId, ReadFailed))
  {
    var u := Upserted([r], KeyOf(r), masteryLevel, now, newId, ReadFailed);
    assert u == [r, NewRecord(KeyOf(r), masteryLevel, now, newId)];
    assert KeyOf(u[0]) == KeyOf(u[1]);
  }

  /** The `progress_c` table as the front-end sees it. */
  class ProgressTable {
    var records: seq<ProgressRecord>

    constructor (initial: seq<ProgressRecord>)
      ensures records == initial
    {
      records := initial;
    }

    /** `updateProgress`. The table changes only when the store applied the
        write, and then as `Upserted` says; the call returns the written
        record only when the store reported it saved, and `null` otherwise. */
    method UpdateProgress(childId: string, subject: string, skillArea: string, masteryLevel: int,
                          now: Millis, newId: int, read: ReadReply, write: WriteReply)
      returns (saved: Option<ProgressRecord>)
      modifies this
      ensures var k := Key(childId, subject, skillArea);
        records == if Applied(write) then Upserted(old(records), k, masteryLevel, now, newId, read) else old(records)
      ensures var k := Key(childId, subject, skillArea);
        saved == if Reported(write) then Some(Written(old(records), k, masteryLevel, now, newId, read)) else None
    {
      var k := Key(childId, subject, skillArea);
      var found: Option<nat> := None;
      if read == ReadOk {
        var i := 0;
        while i < |records| && found == None
          invariant 0 <= i <= |records|
          invariant found == None ==> forall j :: 0 <= j < i ==> !Matches(records[j], k)
          invariant found.Some? ==> found.value < |records| && Matches(records[found.value], k)
          invariant found.Some? ==> forall j :: 0 <= j < found.value ==> !Matches(records[j], k)
        {
          if Matches(records[i], k) {
            found := Some(i);
          }
          i := i + 1;
        }
      }
      assert found == Lookup(records, k, read);
      var written: ProgressRecord;
      if found.Some? {
        written := Updated(records[found.value], masteryLevel, now);
      } else {
        written := NewRecord(k, masteryLevel, now, newId);
      }
      saved := None;
      match write {
        case Rejected =>
        case Threw =>
        case Accepted(results) =>
          if results != Some(false) {
            if found.Some? {
              records := records[found.value := written];
            } else {
              records := records + [written];
            }
          }
          if results == Some(true) {
            saved := Some(written);
          }
      }
    }
  }
}
