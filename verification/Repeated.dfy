/** Counted lists on the wire: reading n items one after another, and writing them so. */
module Repeated {
  import opened Util

  type ReaderOf<!T> = nat -> Option<(T, nat)>

  function ReadMany<T>(read: ReaderOf<T>, offset: nat, count: nat): Option<(seq<T>, nat)>
    decreases count
  {
    if count == 0 then Some(([], offset))
    else
      match read(offset)
      case None => None
      case Some((first, o1)) =>
        match ReadMany(read, o1, count - 1)
        case None => None
        case Some((rest, o2)) => Some(([first] + rest, o2))
  }

  function WriteMany<T>(write: T -> seq<Byte>, items: seq<T>): seq<Byte> {
    if |items| == 0 then [] else write(items[0]) + WriteMany(write, items[1..])
  }

  lemma {:induction false} WriteManyAppend<T>(write: T -> seq<Byte>, items: seq<T>, x: T)
    ensures WriteMany(write, items + [x]) == WriteMany(write, items) + write(x)
  {
    if |items| == 0 {
      assert (items + [x])[1..] == [];
      assert items + [x] == [x];
      assert write(x) + [] == [] + write(x);
    } else {
      assert (items + [x])[1..] == items[1..] + [x];
      WriteManyAppend(write, items[1..], x);
      Assoc(write(items[0]), WriteMany(write, items[1..]), write(x));
    }
  }

  /** Reading at this place gives back the item, or nothing where the item is refused. */
  ghost predicate ReadsBack<T>(read: ReaderOf<T>, write: T -> seq<Byte>, accept: T -> bool, data: seq<Byte>, x: T) {
    forall offset: nat | Holds(data, offset, write(x)) ::
      read(offset) == if accept(x) then Some((x, offset + |write(x)|)) else None
  }

  ghost predicate AcceptsAll<T>(accept: T -> bool, items: seq<T>) {
    forall i | 0 <= i < |items| :: accept(items[i])
  }

  ghost predicate AllReadBack<T>(read: ReaderOf<T>, write: T -> seq<Byte>, accept: T -> bool,
                                 data: seq<Byte>, items: seq<T>) {
    forall i | 0 <= i < |items| :: ReadsBack(read, write, accept, data, items[i])
  }

  lemma ConsRead<T>(read: ReaderOf<T>, offset: nat, items: seq<T>, middle: nat, end: nat, a: bool, b: bool)
    requires |items| > 0
    requires read(offset) == if a then Some((items[0], middle)) else None
    requires ReadMany(read, middle, |items| - 1) == if b then Some((items[1..], end)) else None
    ensures ReadMany(read, offset, |items|) == if a && b then Some((items, end)) else None
  {
    assert [items[0]] + items[1..] == items;
  }

  lemma ConsAccepted<T>(accept: T -> bool, items: seq<T>)
    requires |items| > 0
    ensures AcceptsAll(accept, items) <==> accept(items[0]) && AcceptsAll(accept, items[1..])
  {
    assert items == [items[0]] + items[1..];
  }

  lemma {:induction false} ManyReadsBack<T>(read: ReaderOf<T>, write: T -> seq<Byte>, accept: T -> bool,
                                            data: seq<Byte>, offset: nat, items: seq<T>, end: nat)
    requires AllReadBack(read, write, accept, data, items)
    requires Holds(data, offset, WriteMany(write, items)) && end == offset + |WriteMany(write, items)|
    ensures ReadMany(read, offset, |items|) == if AcceptsAll(accept, items) then Some((items, end)) else None
    decreases |items|
  {
    if |items| > 0 {
      var first, rest := items[0], items[1..];
      var middle := offset + |write(first)|;
      SplitSlice(data, offset, write(first), WriteMany(write, rest));
      assert ReadsBack(read, write, accept, data, first);
      assert AllReadBack(read, write, accept, data, rest);
      ManyReadsBack(read, write, accept, data, middle, rest, end);
      ConsAccepted(accept, items);
      ConsRead(read, offset, items, middle, end, accept(first), AcceptsAll(accept, rest));
    }
  }

  /** What is read is acceptable and stands in the data as it would be written. */
  ghost predicate Canonical<T>(read: ReaderOf<T>, write: T -> seq<Byte>, accept: T -> bool, data: seq<Byte>) {
    forall offset: nat | read(offset).Some? ::
      var (x, end) := read(offset).value;
      accept(x) && end == offset + |write(x)| && Holds(data, offset, write(x))
  }

  lemma {:induction false} ManyCanonical<T>(read: ReaderOf<T>, write: T -> seq<Byte>, accept: T -> bool,
                                            data: seq<Byte>, offset: nat, count: nat)
    requires Canonical(read, write, accept, data)
    requires offset <= |data| && ReadMany(read, offset, count).Some?
    ensures var (items, end) := ReadMany(read, offset, count).value;
            && |items| == count && AcceptsAll(accept, items)
            && end == offset + |WriteMany(write, items)| && Holds(data, offset, WriteMany(write, items))
    decreases count
  {
    if count > 0 {
      var (first, o1) := read(offset).value;
      assert accept(first) && o1 == offset + |write(first)| && Holds(data, offset, write(first));
      ManyCanonical(read, write, accept, data, o1, count - 1);
      var (rest, end) := ReadMany(read, o1, count - 1).value;
      assert ([first] + rest)[1..] == rest;
      JoinSlices(data, offset, write(first), WriteMany(write, rest));
    }
  }

  // ---------- the reading loop ----------

  /** A result with items read earlier put in front. */
  function Prepended<T>(done: seq<T>, r: Option<(seq<T>, nat)>): Option<(seq<T>, nat)> {
    match r
    case None => None
    case Some((rest, end)) => Some((done + rest, end))
  }

  lemma PrependNothing<T>(r: Option<(seq<T>, nat)>)
    ensures Prepended([], r) == r
  {
    match r
    case None =>
    case Some((rest, end)) => assert [] + rest == rest;
  }

  lemma PrependOne<T>(done: seq<T>, x: T, r: Option<(seq<T>, nat)>)
    ensures Prepended(done, Prepended([x], r)) == Prepended(done + [x], r)
  {
    match r
    case None =>
    case Some((rest, end)) => Assoc(done, [x], rest);
  }
}
