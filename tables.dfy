/** A repository table as a sequence of rows in `findAll` order. Ids are
    generated increasing, so a well-formed table lists its rows by increasing
    id; `findById` is `Find`, a derived finder over one column is `Select`,
    `save` of a new entity appends and `save` of a loaded one is `Update`. */
module Tables {
  import opened Wrappers
  import opened Model

  /** Rows appear in strictly increasing id order (so ids are unique). */
  predicate IdsIncreasing<T>(t: seq<Row<T>>) {
    forall i, j :: 0 <= i < j < |t| ==> t[i].id < t[j].id
  }

  /** Every id in the table is below the id generator's next value. */
  predicate IdsBelow<T>(t: seq<Row<T>>, next: Id) {
    forall i :: 0 <= i < |t| ==> t[i].id < next
  }

  /** A well-formed table whose generator will hand out `next` next. */
  predicate WellFormed<T>(t: seq<Row<T>>, next: Id) {
    IdsIncreasing(t) && IdsBelow(t, next)
  }

  /** Position of the first row with the given id. */
  function IndexOf<T>(t: seq<Row<T>>, id: Id): (r: Option<nat>)
    ensures r.Some? ==> r.value < |t| && t[r.value].id == id
    ensures r.Some? ==> forall i :: 0 <= i < r.value ==> t[i].id != id
    ensures r.None? ==> forall i :: 0 <= i < |t| ==> t[i].id != id
  {
    if |t| == 0 then None
    else if t[0].id == id then Some(0)
    else match IndexOf(t[1..], id)
         case None => None
         case Some(k) => Some(k + 1)
  }

  predicate HasId<T>(t: seq<Row<T>>, id: Id) {
    IndexOf(t, id).Some?
  }

  /** `findById`: the entity stored under `id`, if any. */
  function Find<T>(t: seq<Row<T>>, id: Id): (r: Option<T>)
    ensures r.Some? <==> HasId(t, id)
    ensures r.Some? ==> Row(id, r.value) in t
  {
    match IndexOf(t, id)
    case None => None
    case Some(i) => Some(t[i].val)
  }

  /** In a table with unique ids, the stored row with that id is the one found. */
  lemma FindRow<T>(t: seq<Row<T>>, i: nat)
    requires IdsIncreasing(t) && i < |t|
    ensures Find(t, t[i].id) == Some(t[i].val)
  {
    var k := IndexOf(t, t[i].id).value;
    assert !(k < i) && !(i < k);
  }

  /** `save` of an already stored entity: the row with that id gets the new value. */
  function Update<T>(t: seq<Row<T>>, id: Id, v: T): (r: seq<Row<T>>)
    ensures |r| == |t|
    ensures forall i :: 0 <= i < |t| ==> r[i].id == t[i].id
    ensures forall i :: 0 <= i < |t| ==> r[i] == if t[i].id == id then Row(id, v) else t[i]
  {
    seq(|t|, i requires 0 <= i < |t| => if t[i].id == id then Row(id, v) else t[i])
  }

  /** Tables with the same ids position by position find ids at the same position. */
  lemma {:induction false} IndexOfSameIds<T, U>(t: seq<Row<T>>, u: seq<Row<U>>, id: Id)
    requires |t| == |u| && forall i :: 0 <= i < |t| ==> t[i].id == u[i].id
    ensures IndexOf(t, id) == IndexOf(u, id)
  {
    if |t| > 0 && t[0].id != id {
      IndexOfSameIds(t[1..], u[1..], id);
    }
  }

  /** After `Update(t, id, v)`, `id` finds `v` and every other id finds what it found before. */
  lemma FindUpdate<T>(t: seq<Row<T>>, id: Id, v: T, x: Id)
    requires HasId(t, id)
    ensures Find(Update(t, id, v), x) == if x == id then Some(v) else Find(t, x)
  {
    IndexOfSameIds(t, Update(t, id, v), x);
  }

  /** Appending a row with a fresh id changes only what that id finds. */
  lemma {:induction false} FindAppend<T>(t: seq<Row<T>>, next: Id, v: T, x: Id)
    requires IdsBelow(t, next)
    ensures Find(t + [Row(next, v)], x) == if x == next then Some(v) else Find(t, x)
  {
    if |t| > 0 && t[0].id != x {
      assert (t + [Row(next, v)])[1..] == t[1..] + [Row(next, v)];
      FindAppend(t[1..], next, v, x);
    }
  }

  /** A stored row's id is found. */
  lemma MemberHasId<T>(t: seq<Row<T>>, x: Row<T>)
    requires x in t
    ensures HasId(t, x.id)
  {
    var i :| 0 <= i < |t| && t[i] == x;
  }

  /** `Update` stores exactly the ids stored before. */
  lemma UpdateKeepsIds<T>(t: seq<Row<T>>, id: Id, v: T)
    ensures forall x :: HasId(Update(t, id, v), x) == HasId(t, x)
  {
    forall x ensures HasId(Update(t, id, v), x) == HasId(t, x) {
      IndexOfSameIds(t, Update(t, id, v), x);
    }
  }

  /** Appending rows loses no stored id. */
  lemma AppendKeepsIds<T>(t: seq<Row<T>>, rows: seq<Row<T>>)
    ensures forall x :: HasId(t, x) ==> HasId(t + rows, x)
  {
    forall x | HasId(t, x) ensures HasId(t + rows, x) {
      var i := IndexOf(t, x).value;
      assert t[i] == (t + rows)[i];
      MemberHasId(t + rows, t[i]);
    }
  }

  /** Appending a row with the generator's next id keeps the table well formed. */
  lemma AppendWellFormed<T>(t: seq<Row<T>>, next: Id, v: T)
    requires WellFormed(t, next)
    ensures WellFormed(t + [Row(next, v)], next + 1)
  {
  }

  /** `Update` keeps a table well formed. */
  lemma UpdateWellFormed<T>(t: seq<Row<T>>, next: Id, id: Id, v: T)
    requires WellFormed(t, next)
    ensures WellFormed(Update(t, id, v), next)
  {
  }

  /** The rows satisfying `p`, in table order (a derived query such as `findByXAndY`). */
  function Select<T>(t: seq<Row<T>>, p: Row<T> -> bool): (r: seq<Row<T>>)
    ensures forall i :: 0 <= i < |r| ==> r[i] in t && p(r[i])
    ensures forall i :: 0 <= i < |t| && p(t[i]) ==> t[i] in r
    ensures |r| <= |t|
  {
    if |t| == 0 then []
    else
      var rest := Select(t[1..], p);
      if p(t[0]) then [t[0]] + rest else rest
  }

  /** A selection from a well-formed table keeps table order. */
  lemma {:induction false} SelectIncreasing<T>(t: seq<Row<T>>, p: Row<T> -> bool)
    requires IdsIncreasing(t)
    ensures IdsIncreasing(Select(t, p))
  {
    if |t| > 0 {
      var rest := Select(t[1..], p);
      SelectIncreasing(t[1..], p);
      forall j | 0 <= j < |rest| ensures t[0].id < rest[j].id {
        assert rest[j] in t[1..];
      }
    }
  }

  /** Nothing is selected when no row satisfies `p`. */
  lemma {:induction false} SelectNone<T>(t: seq<Row<T>>, p: Row<T> -> bool)
    requires forall i :: 0 <= i < |t| ==> !p(t[i])
    ensures Select(t, p) == []
  {
    if |t| > 0 {
      SelectNone(t[1..], p);
    }
  }

  /** Selecting from a table with one more row at the end. */
  lemma {:induction false} SelectAppend<T>(t: seq<Row<T>>, x: Row<T>, p: Row<T> -> bool)
    ensures Select(t + [x], p) == Select(t, p) + (if p(x) then [x] else [])
  {
    if |t| > 0 {
      assert (t + [x])[1..] == t[1..] + [x];
      SelectAppend(t[1..], x, p);
    }
  }

  /** Selections by two predicates that agree on every row are equal. */
  lemma {:induction false} SelectSame<T>(t: seq<Row<T>>, p1: Row<T> -> bool, p2: Row<T> -> bool)
    requires forall x :: p1(x) == p2(x)
    ensures Select(t, p1) == Select(t, p2)
  {
    if |t| > 0 {
      SelectSame(t[1..], p1, p2);
    }
  }

  /** The first row satisfying `p` (`findByXAndY` returning an `Optional`). */
  function First<T>(t: seq<Row<T>>, p: Row<T> -> bool): (r: Option<Row<T>>)
    ensures r.Some? ==> r.value in t && p(r.value)
    ensures r.None? ==> forall i :: 0 <= i < |t| ==> !p(t[i])
  {
    if |t| == 0 then None
    else if p(t[0]) then Some(t[0])
    else First(t[1..], p)
  }
}
