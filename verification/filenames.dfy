/** The pure part of getFilenames (create_cube.py:61-77): every listed file
    is keyed by the time of day decoded from its name, the list is sorted by
    that key, and the sorted files are numbered from 0.

    Listing the directory is I/O; the model receives the directory path and
    the names `listdir` returned, in the order it returned them.  Python's
    `sorted` is stable, so files with equal keys keep their listing order:
    the result is the unique arrangement that increases in the pair
    (decoded time, listing position).
 */
module Filenames {
  import opened Outcomes
  import Timestamps

  /** One row of the list `q`: the full path, its decoded time and its listing position. */
  datatype Entry = Entry(path: string, time: int, pos: nat)

  /** The order `sorted(q, key=itemgetter(1))` produces: by time, ties by listing position. */
  predicate Precedes(a: Entry, b: Entry)
  {
    a.time < b.time || (a.time == b.time && a.pos < b.pos)
  }

  predicate StrictlySorted(s: seq<Entry>)
  {
    forall i, j :: 0 <= i < j < |s| ==> Precedes(s[i], s[j])
  }

  /** No two entries share a listing position. */
  predicate DistinctPositions(s: seq<Entry>)
  {
    forall i, j :: 0 <= i < j < |s| ==> s[i].pos != s[j].pos
  }

  /** `mypath + file`: the full path of a listed file. */
  function Path(dir: string, name: string): string
  {
    dir + name
  }

  /** The key of the sort: getTimeFromFilename for the day being processed. */
  function TimeKey(day: int, month: int): string -> Result<int>
  {
    name => Timestamps.TimeFromFilename(name, day, month)
  }

  /** The list comprehension at create_cube.py:75 over `names[from..]`; the
      first name that cannot be decoded aborts it. */
  function KeyedFrom(dir: string, names: seq<string>, key: string -> Result<int>, from: nat): (r: Result<seq<Entry>>)
    requires from <= |names|
    decreases |names| - from
    ensures r.Ok? <==> forall k :: from <= k < |names| ==> key(names[k]).Ok?
    ensures r.Err? ==> exists k ::
      && from <= k < |names| && key(names[k]) == Err(r.fault)
      && forall k' :: from <= k' < k ==> key(names[k']).Ok?
    ensures r.Ok? ==> |r.value| == |names| - from
    ensures r.Ok? ==> forall k :: 0 <= k < |r.value| ==>
      r.value[k] == Entry(Path(dir, names[from + k]), key(names[from + k]).value, from + k)
  {
    if from == |names| then Ok([])
    else
      match key(names[from])
      case Err(e) => Err(e)
      case Ok(t) =>
        match KeyedFrom(dir, names, key, from + 1)
        case Err(e) => Err(e)
        case Ok(rest) =>
          Ok([Entry(Path(dir, names[from]), t, from)] + rest)
  }

  /** Inserts `e` in front of the first element it precedes. */
  function Insert(e: Entry, s: seq<Entry>): (r: seq<Entry>)
    ensures multiset(r) == multiset(s) + multiset{e}
    ensures forall x :: x in r <==> x == e || x in s
  {
    if s == [] then [e]
    else if Precedes(e, s[0]) then [e] + s
    else
      assert s == [s[0]] + s[1..];
      [s[0]] + Insert(e, s[1..])
  }

  /** Insertion keeps the order when `e`'s listing position is new. */
  lemma {:induction false} InsertSorted(e: Entry, s: seq<Entry>)
    requires StrictlySorted(s)
    requires forall k :: 0 <= k < |s| ==> s[k].pos != e.pos
    ensures StrictlySorted(Insert(e, s))
  {
    if s != [] && !Precedes(e, s[0]) {
      var rest := Insert(e, s[1..]);
      InsertSorted(e, s[1..]);
      assert Precedes(s[0], e);
      forall x | x in rest
        ensures Precedes(s[0], x)
      {
        if x != e {
          var k :| 0 <= k < |s[1..]| && s[1..][k] == x;
          assert s[k + 1] == x;
        }
      }
      var r := Insert(e, s);
      assert r == [s[0]] + rest;
      forall i, j | 0 <= i < j < |r|
        ensures Precedes(r[i], r[j])
      {
        assert r[j] == rest[j - 1];
        if i > 0 {
          assert r[i] == rest[i - 1];
        }
      }
    }
  }

  /** Insertion sort by `Precedes`; it is the stable sort by time. */
  function Sort(s: seq<Entry>): (r: seq<Entry>)
    requires DistinctPositions(s)
    ensures multiset(r) == multiset(s)
    ensures forall x :: x in r <==> x in s
    ensures StrictlySorted(r)
  {
    if s == [] then []
    else
      assert s == [s[0]] + s[1..];
      var rest := Sort(s[1..]);
      assert forall k :: 0 <= k < |rest| ==> rest[k].pos != s[0].pos by {
        forall k | 0 <= k < |rest|
          ensures rest[k].pos != s[0].pos
        {
          assert rest[k] in s[1..];
        }
      }
      InsertSorted(s[0], rest);
      Insert(s[0], rest)
  }

  /** `q` after `sorted` (create_cube.py:75-76). */
  function Chronological(dir: string, names: seq<string>, key: string -> Result<int>): (r: Result<seq<Entry>>)
  {
    match KeyedFrom(dir, names, key, 0)
    case Err(e) => Err(e)
    case Ok(q) =>
      assert DistinctPositions(q);
      Ok(Sort(q))
  }

  /** getFilenames (create_cube.py:61-77): the numbered, chronologically sorted paths. */
  function GetFilenames(dir: string, names: seq<string>, day: int, month: int): (r: Result<map<int, string>>)
    ensures r.Ok? <==> forall k :: 0 <= k < |names| ==> Timestamps.TimeFromFilename(names[k], day, month).Ok?
    ensures r.Err? ==> exists k ::
      && 0 <= k < |names| && Timestamps.TimeFromFilename(names[k], day, month) == Err(r.fault)
      && forall k' :: 0 <= k' < k ==> Timestamps.TimeFromFilename(names[k'], day, month).Ok?
    ensures r.Ok? ==> forall i :: i in r.value <==> 0 <= i < |names|
  {
    match Chronological(dir, names, TimeKey(day, month))
    case Err(e) => Err(e)
    case Ok(q) =>
      assert |q| == |names| by {
        assert |multiset(q)| == |multiset(KeyedFrom(dir, names, TimeKey(day, month), 0).value)|;
      }
      Ok(map i | 0 <= i < |q| :: q[i].path)
  }

  /** What getFilenames promises its caller: key `i` names the `i`-th file of
      a rearrangement of the listing whose decoded times never decrease, and
      files with equal times keep their listing order. */
  lemma GetFilenamesChronological(dir: string, names: seq<string>, day: int, month: int)
    requires GetFilenames(dir, names, day, month).Ok?
    ensures var q := Chronological(dir, names, TimeKey(day, month));
      && q.Ok?
      && multiset(q.value) == multiset(KeyedFrom(dir, names, TimeKey(day, month), 0).value)
      && (forall i :: 0 <= i < |q.value| ==> GetFilenames(dir, names, day, month).value[i] == q.value[i].path)
      && (forall i, j :: 0 <= i <= j < |q.value| ==> q.value[i].time <= q.value[j].time)
      && (forall i, j :: 0 <= i < j < |q.value| && q.value[i].time == q.value[j].time ==> q.value[i].pos < q.value[j].pos)
  {
  }
}
