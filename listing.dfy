/**
 * The records panel's data (`renderRecordsList`): read the index, look up each
 * id's stored record, drop the ids with nothing stored, and order the rest by
 * `updatedAt`, newest first; and the title a row shows (`recordTitle`).
 */
module Listing {
  import opened Wrappers
  import opened Records
  import opened Text
  import Seqs
  import Storage

  /** JavaScript's `<` on strings: lexicographic order of the characters. */
  predicate Before(a: string, b: string)
    decreases |a|
  {
    if a == [] then b != []
    else if b == [] then false
    else if a[0] < b[0] then true
    else if a[0] == b[0] then Before(a[1..], b[1..])
    else false
  }

  lemma {:induction false} BeforeIrreflexive(a: string)
    ensures !Before(a, a)
    decreases |a|
  {
    if a != [] {
      BeforeIrreflexive(a[1..]);
    }
  }

  lemma {:induction false} BeforeTransitive(a: string, b: string, c: string)
    requires Before(a, b) && Before(b, c)
    ensures Before(a, c)
    decreases |a|
  {
    if a != [] && b != [] && c != [] && a[0] == b[0] == c[0] {
      BeforeTransitive(a[1..], b[1..], c[1..]);
    }
  }

  lemma {:induction false} BeforeTotal(a: string, b: string)
    ensures a == b || Before(a, b) || Before(b, a)
    decreases |a|
  {
    if a != [] && b != [] && a[0] == b[0] {
      BeforeTotal(a[1..], b[1..]);
      if a[1..] == b[1..] {
        assert a == [a[0]] + a[1..] && b == [b[0]] + b[1..];
      }
    }
  }

  lemma BeforeAsymmetric(a: string, b: string)
    requires Before(a, b)
    ensures !Before(b, a)
  {
    if Before(b, a) {
      BeforeTransitive(a, b, a);
      BeforeIrreflexive(a);
    }
  }

  /** "Not before" is transitive: the order the list is sorted by is a total preorder. */
  lemma NotBeforeTransitive(a: string, b: string, c: string)
    requires !Before(a, b) && !Before(b, c)
    ensures !Before(a, c)
  {
    BeforeTotal(a, b);
    BeforeTotal(b, c);
    if Before(a, c) && a != b && b != c {
      BeforeTransitive(c, b, a);
      BeforeTransitive(a, c, a);
      BeforeIrreflexive(a);
    }
  }

  /** Each record was updated no earlier than the one after it. */
  predicate NewestFirst(recs: seq<Record>)
  {
    forall i :: 0 <= i < |recs| - 1 ==> !Before(recs[i].updatedAt, recs[i + 1].updatedAt)
  }

  /** Sorted adjacent pairs give a sorted list: no record is older than any later one. */
  lemma {:induction false} NewestFirstPairwise(recs: seq<Record>, i: nat, j: nat)
    requires NewestFirst(recs) && i <= j < |recs|
    ensures !Before(recs[i].updatedAt, recs[j].updatedAt)
    decreases j - i
  {
    if i == j {
      BeforeIrreflexive(recs[i].updatedAt);
    } else {
      NewestFirstPairwise(recs, i + 1, j);
      NotBeforeTransitive(recs[i].updatedAt, recs[i + 1].updatedAt, recs[j].updatedAt);
    }
  }

  /** Inserts `x` before the first record that is older than it. */
  function Insert(x: Record, recs: seq<Record>): (r: seq<Record>)
    requires NewestFirst(recs)
    ensures NewestFirst(r)
    ensures multiset(r) == multiset(recs) + multiset{x}
    ensures recs != [] ==> r[0] == x || r[0] == recs[0]
    ensures recs == [] ==> r == [x]
  {
    if recs == [] || !Before(x.updatedAt, recs[0].updatedAt) then
      [x] + recs
    else
      BeforeAsymmetric(x.updatedAt, recs[0].updatedAt);
      var rest := Insert(x, recs[1..]);
      assert recs == [recs[0]] + recs[1..];
      [recs[0]] + rest
  }

  /**
   * `.sort((a, b) => (a.updatedAt < b.updatedAt ? 1 : -1))`: a newest-first
   * permutation. The comparator answers -1 both ways for equal timestamps, so
   * it is not consistent and the order of ties is left to the browser; this
   * insertion sort is one of the orders it may produce, not necessarily the
   * one a given browser does.
   */
  function SortNewestFirst(recs: seq<Record>): (r: seq<Record>)
    ensures NewestFirst(r)
    ensures multiset(r) == multiset(recs)
  {
    if recs == [] then []
    else
      assert recs == [recs[0]] + recs[1..];
      Insert(recs[0], SortNewestFirst(recs[1..]))
  }

  /** The records stored under the ids, in index order; ids with nothing stored or an unparsable entry give nothing. */
  function Present(ids: seq<Id>, blobs: map<Id, Blob>): (recs: seq<Record>)
    ensures |recs| <= |ids|
    ensures forall rec :: rec in recs ==> exists id :: id in ids && id in blobs && blobs[id] == Parsed(rec)
    ensures forall id :: id in ids && id in blobs && blobs[id].Parsed? ==> blobs[id].rec in recs
  {
    if ids == [] then []
    else
      var rest := Present(ids[1..], blobs);
      assert forall id :: id in ids <==> id == ids[0] || id in ids[1..];
      if ids[0] in blobs && blobs[ids[0]].Parsed? then [blobs[ids[0]].rec] + rest else rest
  }

  /**
   * In a store whose records are keyed by their own ids, the list holds each
   * stored record exactly as often as its id occurs in the index, and no
   * record that is not stored under its id.
   */
  lemma {:induction false} PresentCounts(ids: seq<Id>, blobs: map<Id, Blob>, rec: Record)
    requires Storage.WellKeyed(blobs)
    ensures multiset(Present(ids, blobs))[rec] ==
            if rec.id in blobs && blobs[rec.id] == Parsed(rec) then multiset(ids)[rec.id] else 0
  {
    if ids != [] {
      PresentCounts(ids[1..], blobs, rec);
      assert ids == [ids[0]] + ids[1..];
      assert multiset(ids) == multiset{ids[0]} + multiset(ids[1..]);
      var rest := Present(ids[1..], blobs);
      if ids[0] in blobs && blobs[ids[0]].Parsed? {
        assert multiset([blobs[ids[0]].rec] + rest) == multiset{blobs[ids[0]].rec} + multiset(rest);
      }
    }
  }

  /** A duplicate-free index over a keyed store lists each record once. */
  lemma {:induction false} PresentEachOnce(ids: seq<Id>, blobs: map<Id, Blob>)
    requires Seqs.NoDuplicates(ids) && Storage.WellKeyed(blobs)
    ensures Seqs.NoDuplicates(Present(ids, blobs))
  {
    if ids != [] {
      PresentEachOnce(ids[1..], blobs);
      var rest := Present(ids[1..], blobs);
      if ids[0] in blobs && blobs[ids[0]].Parsed? {
        var head := blobs[ids[0]].rec;
        forall k | 0 <= k < |ids[1..]|
          ensures ids[1..][k] != head.id
        {
          assert ids[1..][k] == ids[k + 1];
        }
        assert head !in rest;
        var r := [head] + rest;
        forall i, j | 0 <= i < j < |r|
          ensures r[i] != r[j]
        {
          if i > 0 {
            assert r[i] == rest[i - 1] && r[j] == rest[j - 1];
          } else {
            assert r[j] == rest[j - 1];
          }
        }
      }
    }
  }

  /** Some id of the index has an entry that does not parse. */
  predicate SomeUnparsable(ids: seq<Id>, blobs: map<Id, Blob>)
  {
    exists id :: id in ids && id in blobs && blobs[id] == Unparsable
  }

  /** `JSON.parse` throwing inside the `map` step of `renderRecordsList`. */
  datatype ListError = UnparsableRecord(id: Id)

  /**
   * `ids.map(id => raw ? JSON.parse(raw) : null).filter(Boolean)`: the parse is
   * not guarded, so the first unparsable entry aborts the whole list.
   */
  function Collect(ids: seq<Id>, blobs: map<Id, Blob>): (r: Result<seq<Record>, ListError>)
    ensures r.Failure? <==> SomeUnparsable(ids, blobs)
    ensures r.Success? ==> r.value == Present(ids, blobs)
  {
    if ids == [] then Success([])
    else
      assert forall id :: id in ids <==> id == ids[0] || id in ids[1..];
      if ids[0] !in blobs then Collect(ids[1..], blobs)
      else match blobs[ids[0]]
        case Unparsable => Failure(UnparsableRecord(ids[0]))
        case Parsed(rec) =>
          match Collect(ids[1..], blobs)
          case Success(rest) => Success([rec] + rest)
          case Failure(e) => Failure(e)
  }

  /**
   * The rows `renderRecordsList` shows, as written: when every stored entry
   * parses, the stored records newest first; one unparsable entry anywhere in
   * the index makes the whole render throw.
   */
  function ListRecords(ids: seq<Id>, blobs: map<Id, Blob>): (r: Result<seq<Record>, ListError>)
    ensures r.Failure? <==> SomeUnparsable(ids, blobs)
    ensures r.Success? ==> NewestFirst(r.value) && multiset(r.value) == multiset(Present(ids, blobs))
  {
    match Collect(ids, blobs)
    case Success(recs) => Success(SortNewestFirst(recs))
    case Failure(e) => Failure(e)
  }

  /**
   * The list with each unparsable entry skipped on its own, as the loader does:
   * always the parseable stored records, newest first, whatever else is stored.
   */
  function ListRecordsSkipping(ids: seq<Id>, blobs: map<Id, Blob>): (r: seq<Record>)
    ensures NewestFirst(r)
    ensures multiset(r) == multiset(Present(ids, blobs))
    ensures !SomeUnparsable(ids, blobs) ==> ListRecords(ids, blobs) == Success(r)
  {
    SortNewestFirst(Present(ids, blobs))
  }

  /**
   * One corrupt entry hides every row: with `a` stored and parseable and `b`
   * stored as text that does not parse, the list as written throws, while
   * skipping the bad entry still shows `a`'s record.
   */
  lemma CorruptEntryHidesList(a: Record)
    ensures ListRecords(["a", "b"], map["a" := Parsed(a), "b" := Unparsable]) == Failure(UnparsableRecord("b"))
    ensures ListRecordsSkipping(["a", "b"], map["a" := Parsed(a), "b" := Unparsable]) == [a]
  {
    var ids: seq<Id> := ["a", "b"];
    var blobs := map["a" := Parsed(a), "b" := Unparsable];
    assert ids[1..] == ["b"] && ids[1..][1..] == [];
    assert Collect(ids[1..], blobs) == Failure(UnparsableRecord("b"));
    assert Present(ids[1..], blobs) == [];
    assert Present(ids, blobs) == [a];
    assert SortNewestFirst([a]) == Insert(a, SortNewestFirst([]));
  }

  /**
   * The list with unparsable entries skipped is newest first in the strong
   * sense: no row is older than a row below it. (The rows of a successful
   * `ListRecords` are `NewestFirst` by its own contract.)
   */
  lemma ListIsNewestFirst(ids: seq<Id>, blobs: map<Id, Blob>, i: nat, j: nat)
    requires i <= j < |ListRecordsSkipping(ids, blobs)|
    ensures !Before(ListRecordsSkipping(ids, blobs)[i].updatedAt, ListRecordsSkipping(ids, blobs)[j].updatedAt)
  {
    NewestFirstPairwise(ListRecordsSkipping(ids, blobs), i, j);
  }

  /** A property trimmed, or the empty string when it is absent (`p.name?.trim()`). */
  function TrimmedProp(p: Props, key: string): string
  {
    if key in p then Trim(p[key]) else ""
  }

  /**
   * `recordTitle(rec)`: the trimmed name if non-empty, else the trimmed tag if
   * non-empty, else the first eight characters of the id; so the title is
   * empty only when name and tag are blank and the id is empty.
   */
  function RecordTitle(rec: Record): (t: string)
    ensures TrimmedProp(rec.feature.properties, "name") != "" ==> t == TrimmedProp(rec.feature.properties, "name")
    ensures TrimmedProp(rec.feature.properties, "name") == "" && TrimmedProp(rec.feature.properties, "tag") != "" ==>
              t == TrimmedProp(rec.feature.properties, "tag")
    ensures TrimmedProp(rec.feature.properties, "name") == "" && TrimmedProp(rec.feature.properties, "tag") == "" ==>
              t == Seqs.Take(rec.id, 8)
    ensures t == "" <==> TrimmedProp(rec.feature.properties, "name") == ""
                         && TrimmedProp(rec.feature.properties, "tag") == "" && rec.id == ""
  {
    var p := rec.feature.properties;
    var name := TrimmedProp(p, "name");
    var tag := TrimmedProp(p, "tag");
    if name != "" then name else if tag != "" then tag else Seqs.Take(rec.id, 8)
  }
}
