/** `StudyStorage` of storage.py: the set of studies already alerted on,
    keyed by their identity string, plus the time of the last check. The
    JSON file behind it is ghost state: what a fresh load would read. */
module Storage {
  import opened Wrappers
  import opened Studies

  /** One entry of the "seen" object: when it was marked and the study's
      dictionary form. */
  datatype SeenRecord = SeenRecord(firstSeen: string, study: Value)

  /** The `_data` dict: {"seen": {...}, "last_check": ...}. */
  datatype StoreData = StoreData(seen: map<string, SeenRecord>, lastCheck: Option<string>)

  const EMPTY: StoreData := StoreData(map[], None)

  /** The storage file: absent, present but not decodable (bad JSON or an
      I/O error), or holding a store. */
  datatype StoredFile = Missing | Unreadable | Stored(data: StoreData)

  /** What `_load` leaves in `_data`: the file's contents, or the empty store
      when the file is missing or cannot be read. */
  function Load(file: StoredFile): (d: StoreData)
    ensures !file.Stored? ==> d == EMPTY
  {
    match file
    case Stored(data) => data
    case _ => EMPTY
  }

  /** The identities of a list of studies. */
  function Ids(studies: seq<Study>): set<string> {
    set s | s in studies :: UniqueId(s)
  }

  /** `[s for s in studies if is_new(s)]` */
  function NewStudies(seen: map<string, SeenRecord>, studies: seq<Study>): (r: seq<Study>)
    ensures |r| <= |studies|
    ensures forall s :: s in r <==> s in studies && UniqueId(s) !in seen
  {
    if studies == [] then []
    else (if UniqueId(studies[0]) !in seen then [studies[0]] else []) + NewStudies(seen, studies[1..])
  }

  /** The filter keeps input order: it distributes over concatenation. */
  lemma {:induction false} NewStudiesAppend(seen: map<string, SeenRecord>, a: seq<Study>, b: seq<Study>)
    ensures NewStudies(seen, a + b) == NewStudies(seen, a) + NewStudies(seen, b)
  {
    if a == [] {
      assert a + b == b;
    } else {
      assert (a + b)[1..] == a[1..] + b;
      NewStudiesAppend(seen, a[1..], b);
    }
  }

  /** Filtering what was already filtered changes nothing. */
  lemma {:induction false} NewStudiesIdempotent(seen: map<string, SeenRecord>, studies: seq<Study>)
    ensures NewStudies(seen, NewStudies(seen, studies)) == NewStudies(seen, studies)
  {
    if studies != [] {
      NewStudiesIdempotent(seen, studies[1..]);
      var head := if UniqueId(studies[0]) !in seen then [studies[0]] else [];
      NewStudiesAppend(seen, head, NewStudies(seen, studies[1..]));
    }
  }

  /** The "seen" map after the loop of `mark_seen` over the given studies. */
  function MarkAll(seen: map<string, SeenRecord>, studies: seq<Study>, now: string): map<string, SeenRecord> {
    if studies == [] then seen
    else
      var n := |studies| - 1;
      MarkAll(seen, studies[..n], now)[UniqueId(studies[n]) := SeenRecord(now, ToDict(studies[n]))]
  }

  /** After marking, the seen identities are the old ones plus those of the list. */
  lemma {:induction false} MarkAllKeys(seen: map<string, SeenRecord>, studies: seq<Study>, now: string)
    ensures MarkAll(seen, studies, now).Keys == seen.Keys + Ids(studies)
  {
    if studies != [] {
      MarkAllKeys(seen, studies[..|studies| - 1], now);
      IdsLast(studies);
    }
  }

  /** The identities of a list are those before its last study, plus that
      study's. */
  lemma IdsLast(studies: seq<Study>)
    requires studies != []
    ensures Ids(studies) == Ids(studies[..|studies| - 1]) + {UniqueId(studies[|studies| - 1])}
  {
    var n := |studies| - 1;
    assert studies == studies[..n] + [studies[n]];
    forall x | x in Ids(studies)
      ensures x in Ids(studies[..n]) + {UniqueId(studies[n])}
    {
      var s :| s in studies && x == UniqueId(s);
      if s != studies[n] {
        assert s in studies[..n];
      }
    }
  }

  /** One more study: its record overwrites whatever the map held. */
  lemma MarkAllLast(seen: map<string, SeenRecord>, studies: seq<Study>, now: string)
    requires studies != []
    ensures MarkAll(seen, studies, now) ==
      MarkAll(seen, studies[..|studies| - 1], now)[UniqueId(studies[|studies| - 1]) := SeenRecord(now, ToDict(studies[|studies| - 1]))]
  {
  }

  /** Entries for identities not in the list are untouched. */
  lemma {:induction false} MarkAllUntouched(seen: map<string, SeenRecord>, studies: seq<Study>, now: string, id: string)
    requires id !in Ids(studies)
    ensures id in seen ==> id in MarkAll(seen, studies, now) && MarkAll(seen, studies, now)[id] == seen[id]
  {
    if studies != [] {
      var n := |studies| - 1;
      assert studies[n] in studies;
      assert Ids(studies[..n]) <= Ids(studies) by {
        forall s | s in studies[..n] ensures s in studies {
        }
      }
      MarkAllUntouched(seen, studies[..n], now, id);
    }
  }

  /** Every marked identity gets the call's timestamp, even one seen before,
      and the dictionary form of the last study in the list with that identity. */
  lemma {:induction false} MarkAllRecord(seen: map<string, SeenRecord>, studies: seq<Study>, now: string, i: int)
    requires 0 <= i < |studies|
    requires forall j :: i < j < |studies| ==> UniqueId(studies[j]) != UniqueId(studies[i])
    ensures UniqueId(studies[i]) in MarkAll(seen, studies, now)
    ensures MarkAll(seen, studies, now)[UniqueId(studies[i])] == SeenRecord(now, ToDict(studies[i]))
  {
    var n := |studies| - 1;
    var pre := studies[..n];
    MarkAllLast(seen, studies, now);
    if i < n {
      assert pre[i] == studies[i];
      assert forall j :: i < j < |pre| ==> pre[j] == studies[j];
      MarkAllRecord(seen, pre, now, i);
    }
  }

  /** The count grows by the number of distinct identities not seen before. */
  lemma MarkAllCount(seen: map<string, SeenRecord>, studies: seq<Study>, now: string)
    ensures |MarkAll(seen, studies, now)| == |seen| + |Ids(studies) - seen.Keys|
  {
    var added := Ids(studies) - seen.Keys;
    MarkAllKeys(seen, studies, now);
    assert MarkAll(seen, studies, now).Keys == seen.Keys + added;
    assert seen.Keys * added == {};
    assert |seen.Keys| == |seen|;
    assert |MarkAll(seen, studies, now).Keys| == |MarkAll(seen, studies, now)|;
  }

  /** After marking, none of the marked studies is new any more. */
  lemma MarkedAreNotNew(seen: map<string, SeenRecord>, studies: seq<Study>, now: string, later: seq<Study>)
    requires forall s :: s in later ==> s in studies
    ensures NewStudies(MarkAll(seen, studies, now), later) == []
  {
    var marked := MarkAll(seen, studies, now);
    MarkAllKeys(seen, studies, now);
    forall s | s in later
      ensures UniqueId(s) in marked
    {
      assert UniqueId(s) in Ids(studies);
    }
    NoneNew(marked, later);
  }

  /** A list whose identities are all in the map has no new study. */
  lemma {:induction false} NoneNew(seen: map<string, SeenRecord>, studies: seq<Study>)
    requires forall s :: s in studies ==> UniqueId(s) in seen
    ensures NewStudies(seen, studies) == []
  {
    if studies != [] {
      assert studies[0] in studies;
      NoneNew(seen, studies[1..]);
    }
  }

  /** Marking the new studies of a list covers the whole list: filtering
      it again leaves nothing. */
  lemma MarkNewCoversAll(seen: map<string, SeenRecord>, studies: seq<Study>, now: string)
    ensures forall s :: s in studies ==> UniqueId(s) in MarkAll(seen, NewStudies(seen, studies), now)
    ensures NewStudies(MarkAll(seen, NewStudies(seen, studies), now), studies) == []
  {
    var marked := MarkAll(seen, NewStudies(seen, studies), now);
    MarkAllKeys(seen, NewStudies(seen, studies), now);
    forall s | s in studies
      ensures UniqueId(s) in marked
    {
      if UniqueId(s) !in seen {
        assert s in NewStudies(seen, studies);
      }
    }
    NoneNew(marked, studies);
  }

  /** The store as a mutable object over its ghost file. */
  class StudyStorage {
    var data: StoreData
    ghost var file: StoredFile

    /** Reloading the file would give the state in memory. */
    ghost predicate Persisted()
      reads this
    {
      Load(file) == data
    }

    /** `__init__` followed by `_load` */
    constructor(stored: StoredFile)
      ensures data == Load(stored) && file == stored
      ensures Persisted()
    {
      data := Load(stored);
      file := stored;
    }

    /** `is_new` */
    function IsNew(s: Study): bool
      reads this
    {
      UniqueId(s) !in data.seen
    }

    /** `find_new_studies`: reads the store and changes nothing. */
    function FindNewStudies(studies: seq<Study>): (r: seq<Study>)
      reads this
      ensures forall s :: s in r <==> s in studies && IsNew(s)
    {
      NewStudies(data.seen, studies)
    }

    /** `last_check` */
    function LastCheck(): Option<string>
      reads this
    {
      data.lastCheck
    }

    /** `seen_count` */
    function SeenCount(): nat
      reads this
    {
      |data.seen|
    }

    /** `_save`: the whole state goes to the file. */
    method Save()
      modifies this
      ensures data == old(data) && file == Stored(data)
      ensures Persisted()
    {
      file := Stored(data);
    }

    /** `mark_seen(studies)` at time now: upsert every study, in list order,
      then set last_check and save. */
    method MarkSeen(studies: seq<Study>, now: string)
      modifies this
      ensures data == StoreData(MarkAll(old(data.seen), studies, now), Some(now))
      ensures file == Stored(data)
      ensures forall s :: s in studies ==> !IsNew(s)
    {
      ghost var seen0 := data.seen;
      for i := 0 to |studies|
        invariant data == old(data).(seen := MarkAll(seen0, studies[..i], now))
      {
        assert studies[..i + 1][..i] == studies[..i];
        data := data.(seen := data.seen[UniqueId(studies[i]) := SeenRecord(now, ToDict(studies[i]))]);
      }
      assert studies[..|studies|] == studies;
      MarkAllKeys(seen0, studies, now);
      data := data.(lastCheck := Some(now));
      Save();
    }

    /** `update_last_check` at time now: the seen map is unchanged. */
    method UpdateLastCheck(now: string)
      modifies this
      ensures data == old(data).(lastCheck := Some(now))
      ensures file == Stored(data)
    {
      data := data.(lastCheck := Some(now));
      Save();
    }

    /** `clear`: forget everything and save. */
    method Clear()
      modifies this
      ensures data == EMPTY && SeenCount() == 0 && LastCheck().None?
      ensures file == Stored(data)
      ensures forall s :: IsNew(s)
    {
      data := EMPTY;
      Save();
    }
  }
}
