/** The 64-bit hash of id lists that the client sends to ask the server whether anything changed. */
module ApiHash {
  import opened Util

  // ---------- one step of the hash ----------

  function Xor21(x: bv64): bv64 {
    x ^ (x >> 21)
  }

  function Xor35(x: bv64): bv64 {
    x ^ (x << 35)
  }

  function Xor4(x: bv64): bv64 {
    x ^ (x >> 4)
  }

  function Plus(x: bv64, y: bv64): bv64 {
    x + y
  }

  /** The accumulator after one value. */
  function Step(already: bv64, value: bv64): bv64 {
    Plus(Xor4(Xor35(Xor21(already))), value)
  }

  method HashUpdate(already: bv64, value: bv64) returns (r: bv64)
    ensures r == Step(already, value)
  {
    r := already;
    r := Xor21(r);
    r := Xor35(r);
    r := Xor4(r);
    r := Plus(r, value);
  }

  // ---------- and its inverse ----------

  function Undo21(y: bv64): bv64 {
    y ^ (y >> 21) ^ (y >> 42) ^ (y >> 63)
  }

  function Undo4(y: bv64): bv64 {
    Fold32(Fold16(Fold8(Xor4(y))))
  }

  function Fold8(y: bv64): bv64 {
    y ^ (y >> 8)
  }

  function Fold16(y: bv64): bv64 {
    y ^ (y >> 16)
  }

  function Fold32(y: bv64): bv64 {
    y ^ (y >> 32)
  }

  function Minus(x: bv64, y: bv64): bv64 {
    x - y
  }

  /** The accumulator before a step, from the one after it. */
  function Back(after: bv64, value: bv64): bv64 {
    Undo21(Xor35(Undo4(Minus(after, value))))
  }

  lemma Undo21Inverts(x: bv64)
    ensures Undo21(Xor21(x)) == x
  {
    assert Undo21(x ^ (x >> 21)) == x;
  }

  lemma Undo21Inverted(x: bv64)
    ensures Xor21(Undo21(x)) == x
  {
    assert Xor21(x ^ (x >> 21) ^ (x >> 42) ^ (x >> 63)) == x;
  }

  lemma Xor35Inverts(x: bv64)
    ensures Xor35(Xor35(x)) == x
  {
    assert Xor35(x ^ (x << 35)) == x;
  }

  lemma Halve4(x: bv64)
    ensures Xor4(Xor4(x)) == Fold8(x)
  {
    assert Xor4(x ^ (x >> 4)) == x ^ (x >> 8);
  }

  lemma Halve8(x: bv64)
    ensures Fold8(Fold8(x)) == Fold16(x)
  {
    assert Fold8(x ^ (x >> 8)) == x ^ (x >> 16);
  }

  lemma Halve16(x: bv64)
    ensures Fold16(Fold16(x)) == Fold32(x)
  {
    assert Fold16(x ^ (x >> 16)) == x ^ (x >> 32);
  }

  lemma Halve32(x: bv64)
    ensures Fold32(Fold32(x)) == x
  {
    assert Fold32(x ^ (x >> 32)) == x;
  }

  lemma PlusMinus(x: bv64, y: bv64)
    ensures Minus(Plus(x, y), y) == x
  {
    assert Minus(x + y, y) == x;
  }

  lemma MinusPlus(x: bv64, y: bv64)
    ensures Plus(Minus(x, y), y) == x
  {
    assert Plus(x - y, y) == x;
  }

  lemma Commute(x: bv64)
    ensures Xor4(Fold8(x)) == Fold8(Xor4(x))
    ensures Xor4(Fold16(x)) == Fold16(Xor4(x))
    ensures Xor4(Fold32(x)) == Fold32(Xor4(x))
  {
    assert Xor4(x ^ (x >> 8)) == Fold8(x ^ (x >> 4));
    assert Xor4(x ^ (x >> 16)) == Fold16(x ^ (x >> 4));
    assert Xor4(x ^ (x >> 32)) == Fold32(x ^ (x >> 4));
  }

  lemma Undo4Inverts(x: bv64)
    ensures Undo4(Xor4(x)) == x && Xor4(Undo4(x)) == x
  {
    Halve4(x);
    Halve8(x);
    Halve16(x);
    Halve32(x);
    Commute(Fold16(Fold8(Xor4(x))));
    Commute(Fold8(Xor4(x)));
    Commute(Xor4(x));
  }

  /** For each value a step permutes the 64-bit states: Back is its two-sided inverse. */
  lemma StepIsPermutation(x: bv64, value: bv64)
    ensures Back(Step(x, value), value) == x
    ensures Step(Back(x, value), value) == x
  {
    PlusMinus(Xor4(Xor35(Xor21(x))), value);
    Undo4Inverts(Xor35(Xor21(x)));
    Xor35Inverts(Xor21(x));
    Undo21Inverts(x);
    Undo21Inverted(Xor35(Undo4(Minus(x, value))));
    Xor35Inverts(Undo4(Minus(x, value)));
    Undo4Inverts(Minus(x, value));
    MinusPlus(x, value);
  }

  /** The one value that takes a given state to a given state. */
  function ValueBetween(x: bv64, after: bv64): bv64 {
    Minus(after, Xor4(Xor35(Xor21(x))))
  }

  lemma AddendIsDetermined(x: bv64, y: bv64)
    ensures Minus(Plus(x, y), x) == y
    ensures Plus(x, Minus(y, x)) == y
  {
    assert Minus(x + y, x) == y;
    assert Plus(x, y - x) == y;
  }

  lemma PlusHitsOnce(x: bv64, after: bv64, value: bv64)
    ensures Plus(x, value) == after <==> value == Minus(after, x)
  {
    AddendIsDetermined(x, value);
    AddendIsDetermined(x, after);
  }

  lemma StepHitsOnce(x: bv64, after: bv64, value: bv64)
    ensures Step(x, value) == after <==> value == ValueBetween(x, after)
  {
    PlusHitsOnce(Xor4(Xor35(Xor21(x))), after, value);
  }

  // ---------- whole lists ----------

  function HashFrom(already: bv64, values: seq<bv64>): bv64
    decreases |values|
  {
    if |values| == 0 then already else HashFrom(Step(already, values[0]), values[1..])
  }

  function Hash(values: seq<bv64>): bv64 {
    HashFrom(0, values)
  }

  /** The hash begins at 0 and takes one value after the other: that of a single value is the value. */
  lemma HashBegins(value: bv64)
    ensures Hash([]) == 0 && Hash([value]) == value
  {
    ZeroStep(value);
    assert [value][0] == value && [value][1..] == [];
    assert HashFrom(Step(0, value), []) == Step(0, value);
    assert HashFrom(0, [value]) == HashFrom(Step(0, [value][0]), [value][1..]);
  }

  lemma ZeroStep(value: bv64)
    ensures Step(0, value) == value
  {
    assert Xor4(Xor35(Xor21(0))) == 0;
    assert Plus(0, value) == 0 + value;
  }

  method CountHash(range: seq<bv64>) returns (result: bv64)
    ensures result == Hash(range)
  {
    result := 0;
    for i := 0 to |range|
      invariant HashFrom(result, range[i..]) == Hash(range)
    {
      assert range[i..][0] == range[i] && range[i..][1..] == range[i + 1..];
      result := HashUpdate(result, range[i]);
    }
  }

  lemma {:induction false} HashAppend(h: bv64, a: seq<bv64>, b: seq<bv64>)
    ensures HashFrom(h, a + b) == HashFrom(HashFrom(h, a), b)
    decreases |a|
  {
    if |a| == 0 {
      assert a + b == b;
    } else {
      assert (a + b)[1..] == a[1..] + b;
      HashAppend(Step(h, a[0]), a[1..], b);
    }
  }

  /** The state before a suffix, from the one after it. */
  function BackFrom(after: bv64, values: seq<bv64>): bv64 {
    if |values| == 0 then after else Back(BackFrom(after, values[1..]), values[0])
  }

  lemma {:induction false} SuffixIsPermutation(h: bv64, values: seq<bv64>)
    ensures BackFrom(HashFrom(h, values), values) == h
    ensures HashFrom(BackFrom(h, values), values) == h
    decreases |values|
  {
    if |values| > 0 {
      SuffixIsPermutation(Step(h, values[0]), values[1..]);
      StepIsPermutation(h, values[0]);
      SuffixIsPermutation(h, values[1..]);
      StepIsPermutation(BackFrom(h, values[1..]), values[0]);
    }
  }

  /** Appending the same suffix neither creates nor removes a collision. */
  lemma SameSuffix(a: seq<bv64>, b: seq<bv64>, suffix: seq<bv64>)
    ensures Hash(a + suffix) == Hash(b + suffix) <==> Hash(a) == Hash(b)
  {
    HashAppend(0, a, suffix);
    HashAppend(0, b, suffix);
    SuffixIsPermutation(Hash(a), suffix);
    SuffixIsPermutation(Hash(b), suffix);
  }

  /** In any list, at any position, exactly one value gives any wanted hash. */
  lemma OneValueFits(values: seq<bv64>, i: nat, wanted: bv64)
    requires i < |values|
    ensures Hash(values) == wanted
       <==> values[i] == ValueBetween(Hash(values[..i]), BackFrom(wanted, values[i + 1..]))
  {
    var before, after := values[..i], values[i + 1..];
    assert values == before + ([values[i]] + after);
    HashAppend(0, before, [values[i]] + after);
    assert ([values[i]] + after)[1..] == after;
    var h := Hash(before);
    StepHitsOnce(h, BackFrom(wanted, after), values[i]);
    SuffixIsPermutation(wanted, after);
    SuffixIsPermutation(Step(h, values[i]), after);
  }

  /** Lists of any equal length that differ in exactly one position never collide. */
  lemma OneDifference(a: seq<bv64>, b: seq<bv64>, i: nat)
    requires |a| == |b| && i < |a| && a[i] != b[i]
    requires forall j | 0 <= j < |a| && j != i :: a[j] == b[j]
    ensures Hash(a) != Hash(b)
  {
    assert a[..i] == b[..i] && a[i + 1..] == b[i + 1..];
    OneValueFits(a, i, Hash(a));
    OneValueFits(b, i, Hash(a));
  }

  // ---------- sticker sets ----------

  datatype SetId = SetId(value: bv64)

  const DEFAULT_SET_ID := SetId(0)
  const ONE := SetId(1)

  datatype SetInfo = SetInfo(hash: bv64, special: bool, archived: bool, unread: bool)

  predicate IsOutdated(sets: map<SetId, SetInfo>, id: SetId) {
    id in sets && id == DEFAULT_SET_ID
  }

  predicate IsCounted(sets: map<SetId, SetInfo>, id: SetId) {
    id in sets && id != DEFAULT_SET_ID && !sets[id].special && !sets[id].archived
  }

  /** The set hashes that enter the order hash. */
  function CountedHashes(sets: map<SetId, SetInfo>, order: seq<SetId>): seq<bv64> {
    if |order| == 0 then []
    else
      var id := Last(order);
      CountedHashes(sets, order[..|order| - 1]) + if IsCounted(sets, id) then [sets[id].hash] else []
  }

  predicate FoundOutdated(sets: map<SetId, SetInfo>, order: seq<SetId>) {
    exists i | 0 <= i < |order| :: IsOutdated(sets, order[i])
  }

  function StickersOrderHash(sets: map<SetId, SetInfo>, order: seq<SetId>, checkOutdatedInfo: bool): bv64 {
    if checkOutdatedInfo && FoundOutdated(sets, order) then 0 else Hash(CountedHashes(sets, order))
  }

  /** The information is out of date when the default set, whose id is zero, is among the ordered ones that exist. */
  lemma OutdatedIff(sets: map<SetId, SetInfo>, order: seq<SetId>)
    ensures FoundOutdated(sets, order) <==> SetId(0) in order && SetId(0) in sets
  {
    if SetId(0) in order && SetId(0) in sets {
      var i :| 0 <= i < |order| && order[i] == SetId(0);
      assert IsOutdated(sets, order[i]);
    }
  }

  /** The hash is zero then, if that is to be checked. */
  lemma OutdatedIsZero(sets: map<SetId, SetInfo>, order: seq<SetId>)
    requires SetId(0) in order && SetId(0) in sets
    ensures StickersOrderHash(sets, order, true) == 0
    ensures StickersOrderHash(sets, order, false) == Hash(CountedHashes(sets, order))
  {
    OutdatedIff(sets, order);
  }

  /** The hashes are those of the ordered sets that exist and are neither the default set, special nor archived. */
  lemma {:induction false} CountedAre(sets: map<SetId, SetInfo>, order: seq<SetId>)
    ensures var ids := Filter(order, (id: SetId) => id in sets && id.value != 0 && !sets[id].special
                                                    && !sets[id].archived);
            && |CountedHashes(sets, order)| == |ids|
            && (forall i | 0 <= i < |ids| :: ids[i] in sets && CountedHashes(sets, order)[i] == sets[ids[i]].hash)
    decreases |order|
  {
    var keep := (id: SetId) => id in sets && id.value != 0 && !sets[id].special && !sets[id].archived;
    if |order| > 0 {
      var front := order[..|order| - 1];
      CountedAre(sets, front);
      assert order == front + [Last(order)];
      FilterPush(front, Last(order), keep);
    }
  }

  lemma HashSnoc(values: seq<bv64>, value: bv64)
    ensures Hash(values + [value]) == Step(Hash(values), value)
  {
    HashAppend(0, values, [value]);
    assert [value][1..] == [];
  }

  lemma OneMore(sets: map<SetId, SetInfo>, order: seq<SetId>, i: nat)
    requires i < |order|
    ensures CountedHashes(sets, order[..i + 1])
         == if IsCounted(sets, order[i]) then CountedHashes(sets, order[..i]) + [sets[order[i]].hash]
            else CountedHashes(sets, order[..i])
    ensures FoundOutdated(sets, order[..i + 1]) <==> FoundOutdated(sets, order[..i]) || IsOutdated(sets, order[i])
  {
    var more := order[..i + 1];
    assert more[..i] == order[..i] && more[i] == order[i];
    if j :| 0 <= j < |order[..i]| && IsOutdated(sets, order[..i][j]) {
      assert IsOutdated(sets, more[j]);
    }
    if j :| 0 <= j < |more| && IsOutdated(sets, more[j]) {
      assert j < i ==> IsOutdated(sets, order[..i][j]);
    }
  }

  method CountStickersOrderHash(sets: map<SetId, SetInfo>, order: seq<SetId>, checkOutdatedInfo: bool)
    returns (r: bv64)
    ensures r == StickersOrderHash(sets, order, checkOutdatedInfo)
  {
    var result: bv64 := 0;
    var foundOutdated := false;
    for i := 0 to |order|
      invariant result == Hash(CountedHashes(sets, order[..i]))
      invariant foundOutdated <==> FoundOutdated(sets, order[..i])
    {
      var id := order[i];
      OneMore(sets, order, i);
      if id in sets {
        if id == DEFAULT_SET_ID {
          foundOutdated := true;
        } else if !sets[id].special && !sets[id].archived {
          HashSnoc(CountedHashes(sets, order[..i]), sets[id].hash);
          result := HashUpdate(result, sets[id].hash);
        }
      }
    }
    assert order[..|order|] == order;
    r := if !checkOutdatedInfo || !foundOutdated then result else 0;
  }

  lemma {:induction false} CountedAppend(sets: map<SetId, SetInfo>, a: seq<SetId>, b: seq<SetId>)
    ensures CountedHashes(sets, a + b) == CountedHashes(sets, a) + CountedHashes(sets, b)
    decreases |b|
  {
    if |b| == 0 {
      assert a + b == a;
    } else {
      var front := b[..|b| - 1];
      assert (a + b)[..|a + b| - 1] == a + front;
      CountedAppend(sets, a, front);
      Assoc(CountedHashes(sets, a), CountedHashes(sets, front),
            if IsCounted(sets, Last(b)) then [sets[Last(b)].hash] else []);
    }
  }

  lemma {:induction false} CountedElsewhere(sets: map<SetId, SetInfo>, id: SetId, info: SetInfo, order: seq<SetId>)
    requires id !in order
    ensures CountedHashes(sets[id := info], order) == CountedHashes(sets, order)
    decreases |order|
  {
    if |order| > 0 {
      assert order[|order| - 1] in order;
      CountedElsewhere(sets, id, info, order[..|order| - 1]);
    }
  }

  /**
   * When one set of the order changes its hash, the order hash changes with it, except exactly when outdated
   * information is being checked for and was found: then it is zero before and after.
   */
  lemma OneSetChanged(sets: map<SetId, SetInfo>, order: seq<SetId>, i: nat, hash: bv64, check: bool)
    requires i < |order| && IsCounted(sets, order[i]) && sets[order[i]].hash != hash
    requires order[i] !in order[..i] && order[i] !in order[i + 1..]
    ensures StickersOrderHash(WithHash(sets, order[i], hash), order, check) != StickersOrderHash(sets, order, check)
       <==> !(check && FoundOutdated(sets, order))
  {
    var id := order[i];
    var changed := WithHash(sets, id, hash);
    OutdatedElsewhere(sets, id, hash, order);
    CountedAround(sets, order, i);
    CountedAround(changed, order, i);
    CountedElsewhere(sets, id, changed[id], order[..i]);
    CountedElsewhere(sets, id, changed[id], order[i + 1..]);
    DifferInside(CountedHashes(sets, order[..i]), sets[id].hash, hash, CountedHashes(sets, order[i + 1..]));
  }

  function WithHash(sets: map<SetId, SetInfo>, id: SetId, hash: bv64): map<SetId, SetInfo>
    requires id in sets
  {
    sets[id := sets[id].(hash := hash)]
  }

  lemma OutdatedElsewhere(sets: map<SetId, SetInfo>, id: SetId, hash: bv64, order: seq<SetId>)
    requires id in sets
    ensures FoundOutdated(WithHash(sets, id, hash), order) <==> FoundOutdated(sets, order)
  {
    var changed := WithHash(sets, id, hash);
    if FoundOutdated(sets, order) {
      var j :| 0 <= j < |order| && IsOutdated(sets, order[j]);
      assert IsOutdated(changed, order[j]);
    }
    if FoundOutdated(changed, order) {
      var j :| 0 <= j < |order| && IsOutdated(changed, order[j]);
      assert IsOutdated(sets, order[j]);
    }
  }

  lemma DifferInside(p: seq<bv64>, v: bv64, w: bv64, q: seq<bv64>)
    requires v != w
    ensures Hash(p + [v] + q) != Hash(p + [w] + q)
  {
    OneDifference(p + [v] + q, p + [w] + q, |p|);
  }

  lemma CountedAround(sets: map<SetId, SetInfo>, order: seq<SetId>, i: nat)
    requires i < |order| && IsCounted(sets, order[i])
    ensures CountedHashes(sets, order)
         == CountedHashes(sets, order[..i]) + [sets[order[i]].hash] + CountedHashes(sets, order[i + 1..])
  {
    assert order == order[..i] + [order[i]] + order[i + 1..];
    CountedAppend(sets, order[..i] + [order[i]], order[i + 1..]);
    CountedAppend(sets, order[..i], [order[i]]);
    assert [order[i]][..0] == [];
    assert [] + [sets[order[i]].hash] == [sets[order[i]].hash];
  }

  // ---------- featured sets ----------

  /** Ids, each followed by a one when the set is unread. */
  function FeaturedValues(sets: map<SetId, SetInfo>, order: seq<SetId>): seq<bv64> {
    if |order| == 0 then []
    else [order[0].value] + (if IsUnread(sets, order[0]) then [1] else []) + FeaturedValues(sets, order[1..])
  }

  predicate IsUnread(sets: map<SetId, SetInfo>, id: SetId) {
    id in sets && sets[id].unread
  }

  method CountFeaturedHash(sets: map<SetId, SetInfo>, order: seq<SetId>) returns (result: bv64)
    ensures result == Hash(FeaturedValues(sets, order))
  {
    result := 0;
    for i := 0 to |order|
      invariant HashFrom(result, FeaturedValues(sets, order[i..])) == Hash(FeaturedValues(sets, order))
    {
      assert order[i..][1..] == order[i + 1..];
      var rest := FeaturedValues(sets, order[i + 1..]);
      var one: seq<bv64> := if IsUnread(sets, order[i]) then [1] else [];
      assert ([order[i].value] + one + rest)[1..] == one + rest;
      result := HashUpdate(result, order[i].value);
      if order[i] in sets && sets[order[i]].unread {
        assert (one + rest)[1..] == rest;
        result := HashUpdate(result, 1);
      } else {
        assert one + rest == rest;
      }
    }
  }

  /** Which sets are featured and which of them are unread can be read off the hashed values, unless 1 is a set id. */
  lemma {:induction false} FeaturedReadable(s1: map<SetId, SetInfo>, o1: seq<SetId>,
                                           s2: map<SetId, SetInfo>, o2: seq<SetId>)
    requires ONE !in o1 && ONE !in o2 && FeaturedValues(s1, o1) == FeaturedValues(s2, o2)
    ensures o1 == o2 && forall i | 0 <= i < |o1| :: IsUnread(s1, o1[i]) <==> IsUnread(s2, o2[i])
    decreases |o1|
  {
    var v1, v2 := FeaturedValues(s1, o1), FeaturedValues(s2, o2);
    if |o1| == 0 || |o2| == 0 {
      assert |v1| == 0;
    } else {
      FeaturedFirst(s1, o1);
      FeaturedFirst(s2, o2);
      FeaturedHead(s1, o1);
      FeaturedHead(s2, o2);
      FeaturedReadable(s1, o1[1..], s2, o2[1..]);
      assert o1 == [o1[0]] + o1[1..] && o2 == [o2[0]] + o2[1..];
    }
  }

  lemma FeaturedFirst(sets: map<SetId, SetInfo>, order: seq<SetId>)
    requires |order| > 0
    ensures |FeaturedValues(sets, order)| > 0 && FeaturedValues(sets, order)[0] == order[0].value
  {
  }

  /** The values after a head id, and whether they say the set is unread. */
  lemma FeaturedHead(sets: map<SetId, SetInfo>, order: seq<SetId>)
    requires |order| > 0 && ONE !in order
    ensures |FeaturedValues(sets, order)| > 0
    ensures IsUnread(sets, order[0]) <==> MarksUnread(FeaturedValues(sets, order))
    ensures FeaturedValues(sets, order[1..]) == AfterHead(FeaturedValues(sets, order))
  {
    var rest := FeaturedValues(sets, order[1..]);
    if |order| > 1 {
      assert order[1] in order;
      FeaturedFirst(sets, order[1..]);
    }
    SplitHead(FeaturedValues(sets, order), order[0].value, IsUnread(sets, order[0]), rest);
  }

  lemma SplitHead(v: seq<bv64>, head: bv64, unread: bool, rest: seq<bv64>)
    requires v == [head] + (if unread then [1] else []) + rest
    requires |rest| > 0 ==> rest[0] != 1
    ensures |v| > 0 && (unread <==> MarksUnread(v)) && rest == AfterHead(v)
  {
    if unread {
      assert v[1] == 1 && v[2..] == rest;
    } else {
      assert v[1..] == rest;
      assert |v| > 1 ==> v[1] == rest[0];
    }
  }

  predicate MarksUnread(v: seq<bv64>) {
    |v| > 1 && v[1] == 1
  }

  function AfterHead(v: seq<bv64>): seq<bv64>
    requires |v| > 0
  {
    if MarksUnread(v) then v[2..] else v[1..]
  }

  /** With a set id of 1 it cannot: one unread set hashes like the same set read, followed by set 1. */
  lemma FeaturedAmbiguous(id: SetId)
    requires id != ONE
    ensures var unread := map[id := SetInfo(0, false, false, true)];
            Hash(FeaturedValues(unread, [id])) == Hash(FeaturedValues(map[], [id, ONE]))
  {
    var unread := map[id := SetInfo(0, false, false, true)];
    assert [id][1..] == [] && [id, ONE][1..] == [ONE] && [ONE][1..] == [];
    assert FeaturedValues(unread, []) == [] && IsUnread(unread, id);
    assert FeaturedValues(unread, [id]) == [id.value] + [1] + [];
    assert [id.value] + [1] + [] == [id.value, 1];
    assert FeaturedValues(map[], []) == [];
    assert FeaturedValues(map[], [ONE]) == [1] + [] + [] == [1];
    assert FeaturedValues(map[], [id, ONE]) == [id.value] + [] + [1];
    assert [id.value] + [] + [1] == [id.value, 1];
  }
}
