/** Placing a block of cards among ordered siblings: `spaced_keys` and `insert_block_into`
    of src/card/CardHierarchy.cpp. */
module Placement {
  import opened Common
  import opened Cards

  /** The floating-point operations of `spaced_keys`, left open: every result below holds
      whatever these return, because the code checks the keys it computes.
      `mix` is None where the interpolated key is not finite. */
  datatype Arithmetic = Arithmetic(
    below: (real, nat) -> real,
    above: (real, nat) -> real,
    mix: (real, real, nat, nat) -> Option<real>)

  /** The same operations without rounding or overflow. */
  function Exact(): Arithmetic
  {
    Arithmetic(
      (right: real, n: nat) => right - n as real - 1.0,
      (left: real, n: nat) => left + n as real + 1.0,
      (low: real, high: real, i: nat, n: nat) => Some(Interpolated(low, high, i, n)))
  }

  function Interpolated(low: real, high: real, i: nat, n: nat): real
  {
    var fraction := (i + 1) as real / (n as real + 1.0);
    low * (1.0 - fraction) + high * fraction
  }

  // ----- spaced_keys -----

  /** Keys strictly increasing and strictly between the bounds. */
  ghost predicate Fit(keys: seq<real>, low: real, high: real)
  {
    && (forall i :: 0 <= i < |keys| ==> low < keys[i] < high)
    && (forall i, j :: 0 <= i < j < |keys| ==> keys[i] < keys[j])
  }

  function LowBound(a: Arithmetic, left: Option<real>, right: Option<real>, n: nat): real
  {
    if left.Some? then left.value else if right.Some? then a.below(right.value, n) else 0.0
  }

  function HighBound(a: Arithmetic, left: Option<real>, right: Option<real>, n: nat): real
  {
    if right.Some? then right.value else a.above(LowBound(a, left, right, n), n)
  }

  function KeysFrom(a: Arithmetic, low: real, high: real, n: nat, i: nat, previous: real): (r: Option<seq<real>>)
    requires i <= n && low <= previous
    ensures r.Some? ==> |r.value| == n - i && Fit(r.value, previous, high)
    decreases n - i
  {
    if i == n then Some([])
    else
      var key := a.mix(low, high, i, n);
      if key.None? || key.value <= previous || key.value >= high then None
      else
        var rest := KeysFrom(a, low, high, n, i + 1, key.value);
        if rest.None? then None else Some([key.value] + rest.value)
  }

  function SpacedKeys(a: Arithmetic, left: Option<real>, right: Option<real>, count: nat): (r: Option<seq<real>>)
    ensures r.Some? ==> |r.value| == count
    ensures r.Some? ==> Fit(r.value, LowBound(a, left, right, count), HighBound(a, left, right, count))
  {
    var low := LowBound(a, left, right, count);
    KeysFrom(a, low, HighBound(a, left, right, count), count, 0, low)
  }

  method ComputeSpacedKeys(a: Arithmetic, left: Option<real>, right: Option<real>, count: nat)
    returns (r: Option<seq<real>>)
    ensures r == SpacedKeys(a, left, right, count)
  {
    hide *;
    var low := LowBound(a, left, right, count);
    var high := HighBound(a, left, right, count);
    var keys: seq<real> := [];
    var previous := low;
    var i := 0;
    SpacedIs(a, left, right, count);
    ghost var all := KeysFrom(a, low, high, count, 0, low);
    assert all.Some? ==> [] + all.value == all.value;
    while i < count
      invariant 0 <= i <= count && low <= previous
      invariant all.Some? == KeysFrom(a, low, high, count, i, previous).Some?
      invariant all.Some? ==> all.value == keys + KeysFrom(a, low, high, count, i, previous).value
    {
      var key := a.mix(low, high, i, count);
      KeysNext(a, low, high, count, i, previous);
      if key.None? || key.value <= previous || key.value >= high {
        return None;
      }
      ghost var rest := KeysFrom(a, low, high, count, i + 1, key.value);
      assert rest.Some? ==> keys + ([key.value] + rest.value) == (keys + [key.value]) + rest.value;
      keys := keys + [key.value];
      previous := key.value;
      i := i + 1;
    }
    KeysEnd(a, low, high, count, previous);
    assert keys + [] == keys;
    return Some(keys);
  }

  lemma SpacedIs(a: Arithmetic, left: Option<real>, right: Option<real>, count: nat)
    ensures var low := LowBound(a, left, right, count);
      SpacedKeys(a, left, right, count) == KeysFrom(a, low, HighBound(a, left, right, count), count, 0, low)
  {
    hide KeysFrom, LowBound, HighBound;
  }

  lemma KeysNext(a: Arithmetic, low: real, high: real, n: nat, i: nat, previous: real)
    requires i < n && low <= previous
    ensures var key := a.mix(low, high, i, n);
      KeysFrom(a, low, high, n, i, previous) ==
        if key.None? || key.value <= previous || key.value >= high then None
        else
          var rest := KeysFrom(a, low, high, n, i + 1, key.value);
          if rest.None? then None else Some([key.value] + rest.value)
  {
  }

  lemma KeysEnd(a: Arithmetic, low: real, high: real, n: nat, previous: real)
    requires low <= previous
    ensures KeysFrom(a, low, high, n, n, previous) == Some([])
  {
  }

  // ----- insert_block_into -----

  /** The sibling list after the insertion, and the cards whose rows must be rewritten. */
  datatype Placed = Placed(list: seq<Card>, changed: seq<Card>)

  const NO_KEYS := "no sort keys available for card placement"

  function Reparent(block: seq<Card>, parent: Option<Id>): (r: seq<Card>)
    ensures |r| == |block| && forall i :: 0 <= i < |block| ==> r[i] == block[i].(parent := parent)
  {
    seq(|block|, i requires 0 <= i < |block| => block[i].(parent := parent))
  }

  function Spliced(dest: seq<Card>, at: nat, block: seq<Card>, parent: Option<Id>): (r: seq<Card>)
    requires at <= |dest|
    ensures |r| == |dest| + |block|
  {
    dest[..at] + Reparent(block, parent) + dest[at..]
  }

  function WindowLow(at: nat, radius: nat): (low: nat)
    ensures low <= at
  {
    if at > radius then at - radius else 0
  }

  function WindowHigh(size: nat, blockEnd: nat, radius: nat): (high: nat)
    requires blockEnd <= size
    ensures blockEnd <= high <= size
  {
    if blockEnd + radius < size then blockEnd + radius else size
  }

  function LeftKey(list: seq<Card>, low: nat): Option<real>
    requires low <= |list|
  {
    if low > 0 then Some(list[low - 1].key) else None
  }

  function RightKey(list: seq<Card>, high: nat): Option<real>
    requires high <= |list|
  {
    if high < |list| then Some(list[high].key) else None
  }

  /** A position whose card is rewritten: it belongs to the block or its key moves. */
  predicate Rewritten(list: seq<Card>, low: nat, at: nat, blockEnd: nat, keys: seq<real>, i: nat)
    requires i < |list|
  {
    low <= i < low + |keys| && (at <= i < blockEnd || list[i].key != keys[i - low])
  }

  function Rekeyed(list: seq<Card>, low: nat, at: nat, blockEnd: nat, keys: seq<real>, now: int, i: nat): Card
    requires i < |list|
  {
    if Rewritten(list, low, at, blockEnd, keys, i)
    then list[i].(key := keys[i - low], updatedAt := now)
    else list[i]
  }

  /** The rewritten cards among the first `n`, in list order. */
  function RewrittenCards(list: seq<Card>, low: nat, at: nat, blockEnd: nat, keys: seq<real>, now: int, n: nat)
    : (cs: seq<Card>)
    requires n <= |list|
  {
    if n == 0 then []
    else
      var cs := RewrittenCards(list, low, at, blockEnd, keys, now, n - 1);
      if Rewritten(list, low, at, blockEnd, keys, n - 1)
      then cs + [Rekeyed(list, low, at, blockEnd, keys, now, n - 1)] else cs
  }

  lemma {:induction false} RewrittenCardsAre(list: seq<Card>, low: nat, at: nat, blockEnd: nat, keys: seq<real>,
                                             now: int,
                                             n: nat, c: Card)
    requires n <= |list|
    ensures c in RewrittenCards(list, low, at, blockEnd, keys, now, n) <==>
      exists i :: 0 <= i < n && Rewritten(list, low, at, blockEnd, keys, i) &&
        c == Rekeyed(list, low, at, blockEnd, keys, now, i)
  {
    if n > 0 {
      RewrittenCardsAre(list, low, at, blockEnd, keys, now, n - 1, c);
    }
  }

  function Rekey(list: seq<Card>, low: nat, at: nat, blockEnd: nat, keys: seq<real>, now: int): (p: Placed)
  {
    Placed(seq(|list|, i requires 0 <= i < |list| => Rekeyed(list, low, at, blockEnd, keys, now, i)),
           RewrittenCards(list, low, at, blockEnd, keys, now, |list|))
  }

  /** Fresh keys for the window of this radius, if they fit between its neighbours. */
  function WindowKeys(a: Arithmetic, list: seq<Card>, at: nat, blockEnd: nat, radius: nat): (r: Option<seq<real>>)
    requires at <= blockEnd <= |list|
    ensures r.Some? ==> |r.value| == WindowHigh(|list|, blockEnd, radius) - WindowLow(at, radius)
  {
    var low, high := WindowLow(at, radius), WindowHigh(|list|, blockEnd, radius);
    SpacedKeys(a, LeftKey(list, low), RightKey(list, high), high - low)
  }

  /** The widening loop from `radius` on. */
  function Widen(a: Arithmetic, list: seq<Card>, at: nat, blockEnd: nat, now: int, radius: nat): (r: Result<Placed>)
    requires at <= blockEnd <= |list|
    decreases |list| - radius
  {
    var low, high := WindowLow(at, radius), WindowHigh(|list|, blockEnd, radius);
    var keys := WindowKeys(a, list, at, blockEnd, radius);
    if keys.Some? then Ok(Rekey(list, low, at, blockEnd, keys.value, now))
    else if low == 0 && high == |list| then Err(NO_KEYS)
    else Widen(a, list, at, blockEnd, now, if radius == 0 then 1 else radius * 2)
  }

  function InsertBlock(a: Arithmetic, dest: seq<Card>, at: nat, block: seq<Card>, parent: Option<Id>, now: int)
    : (r: Result<Placed>)
    requires at <= |dest|
  {
    if block == [] then Ok(Placed(dest, []))
    else Widen(a, Spliced(dest, at, block, parent), at, at + |block|, now, 0)
  }

  /** `insert_block_into`, destination updated in place. */
  method InsertBlockInto(a: Arithmetic, dest: seq<Card>, at: nat, block: seq<Card>, parent: Option<Id>, now: int)
    returns (r: Result<Placed>)
    requires at <= |dest|
    ensures r == InsertBlock(a, dest, at, block, parent, now)
  {
    if block == [] {
      return Ok(Placed(dest, []));
    }
    var destination := Spliced(dest, at, block, parent);
    r := RespaceWidening(a, destination, at, at + |block|, now);
  }

  method RespaceWidening(a: Arithmetic, destination: seq<Card>, at: nat, blockEnd: nat, now: int)
    returns (r: Result<Placed>)
    requires at <= blockEnd <= |destination|
    ensures r == Widen(a, destination, at, blockEnd, now, 0)
  {
    var radius := 0;
    while true
      invariant Widen(a, destination, at, blockEnd, now, 0) == Widen(a, destination, at, blockEnd, now, radius)
      decreases |destination| - radius
    {
      var low, high := WindowLow(at, radius), WindowHigh(|destination|, blockEnd, radius);
      var keys := ComputeSpacedKeys(a, LeftKey(destination, low), RightKey(destination, high), high - low);
      assert keys == WindowKeys(a, destination, at, blockEnd, radius);
      if keys.Some? {
        var p := Respace(destination, low, high, at, blockEnd, keys.value, now);
        return Ok(p);
      }
      if low == 0 && high == |destination| {
        return Err(NO_KEYS);
      }
      radius := if radius == 0 then 1 else radius * 2;
    }
  }

  /** The body of the loop once the keys fit: `destination[low, high)` is updated in place. */
  method Respace(dest: seq<Card>, low: nat, high: nat, at: nat, blockEnd: nat, keys: seq<real>, now: int)
    returns (p: Placed)
    requires low <= at <= blockEnd <= high <= |dest| && |keys| == high - low
    ensures p == Rekey(dest, low, at, blockEnd, keys, now)
  {
    var destination := dest;
    var changed: seq<Card> := [];
    for i := 0 to |dest|
      invariant |destination| == |dest|
      invariant forall k :: 0 <= k < i ==> destination[k] == Rekeyed(dest, low, at, blockEnd, keys, now, k)
      invariant forall k :: i <= k < |dest| ==> destination[k] == dest[k]
      invariant changed == RewrittenCards(dest, low, at, blockEnd, keys, now, i)
    {
      if low <= i < high && (at <= i < blockEnd || destination[i].key != keys[i - low]) {
        destination := destination[i := destination[i].(key := keys[i - low], updatedAt := now)];
        changed := changed + [destination[i]];
      }
    }
    p := Placed(destination, changed);
    assert p.list == Rekey(dest, low, at, blockEnd, keys, now).list;
  }

  // ----- what a placement is -----

  /** Only keys and stamps move, outside the block a card is either untouched or stamped,
      and `changed` holds exactly the block and the touched cards. */
  ghost predicate IsPlacement(before: seq<Card>, at: nat, blockEnd: nat, now: int, p: Placed)
  {
    && at <= blockEnd <= |before| == |p.list|
    && (forall i :: 0 <= i < |before| ==> SameBut(before[i], p.list[i], now, at <= i < blockEnd))
    && (forall i :: 0 <= i < |before| && (at <= i < blockEnd || p.list[i] != before[i]) ==> p.list[i] in p.changed)
    && (forall c :: c in p.changed ==> Touched(before, at, blockEnd, p.list, c))
  }

  /** `c` stands in the list at a position of the block or in place of a different card. */
  ghost predicate Touched(before: seq<Card>, at: nat, blockEnd: nat, list: seq<Card>, c: Card)
    requires |before| == |list|
  {
    exists i :: 0 <= i < |list| && list[i] == c && (at <= i < blockEnd || list[i] != before[i])
  }

  ghost predicate SameBut(old_: Card, new_: Card, now: int, always: bool)
  {
    (!always && new_ == old_) || new_ == old_.(key := new_.key, updatedAt := now)
  }

  /** The keys of the block are strictly apart from all others. */
  ghost predicate Separated(list: seq<Card>, at: nat, blockEnd: nat)
  {
    forall i, j :: 0 <= i < j < |list| && (at <= i < blockEnd || at <= j < blockEnd) ==> list[i].key < list[j].key
  }

  /** Placement read-back at list level: the result is the requested sequence, in tree order. */
  lemma InsertBlockPlaces(a: Arithmetic, dest: seq<Card>, at: nat, block: seq<Card>, parent: Option<Id>, now: int)
    requires at <= |dest| && Sorted(TreeOrder, dest) && InsertBlock(a, dest, at, block, parent, now).Ok?
    ensures var p := InsertBlock(a, dest, at, block, parent, now).value;
      && IsPlacement(Spliced(dest, at, block, parent), at, at + |block|, now, p)
      && Sorted(TreeOrder, p.list) && Separated(p.list, at, at + |block|)
      && Ids(p.list) == Ids(dest[..at]) + Ids(block) + Ids(dest[at..])
  {
    var list := Spliced(dest, at, block, parent);
    var p := InsertBlock(a, dest, at, block, parent, now).value;
    if block != [] {
      WidenPlaces(a, dest, at, block, parent, now, 0, list, p);
    } else {
      assert list == dest;
    }
    SplicedIds(dest, at, block, parent);
    SameButIds(list, p.list, at, at + |block|, now);
  }

  lemma SplicedIds(dest: seq<Card>, at: nat, block: seq<Card>, parent: Option<Id>)
    requires at <= |dest|
    ensures Ids(Spliced(dest, at, block, parent)) == Ids(dest[..at]) + Ids(block) + Ids(dest[at..])
  {
  }

  lemma SameButIds(before: seq<Card>, after: seq<Card>, at: nat, blockEnd: nat, now: int)
    requires |before| == |after|
    requires forall i :: 0 <= i < |before| ==> SameBut(before[i], after[i], now, at <= i < blockEnd)
    ensures Ids(after) == Ids(before)
  {
    assert forall i :: 0 <= i < |before| ==> Ids(before)[i] == before[i].id;
  }

  lemma WindowKeysFit(a: Arithmetic, list: seq<Card>, at: nat, blockEnd: nat, radius: nat)
    requires at <= blockEnd <= |list| && WindowKeys(a, list, at, blockEnd, radius).Some?
    ensures var keys := WindowKeys(a, list, at, blockEnd, radius).value;
      var low, high := WindowLow(at, radius), WindowHigh(|list|, blockEnd, radius);
      && (forall i, j :: 0 <= i < j < |keys| ==> keys[i] < keys[j])
      && (low > 0 ==> forall i :: 0 <= i < |keys| ==> list[low - 1].key < keys[i])
      && (high < |list| ==> forall i :: 0 <= i < |keys| ==> keys[i] < list[high].key)
  {
  }

  lemma WidenUnfolds(a: Arithmetic, list: seq<Card>, at: nat, blockEnd: nat, now: int, radius: nat, p: Placed)
    requires at <= blockEnd <= |list| && Widen(a, list, at, blockEnd, now, radius) == Ok(p)
    ensures var keys := WindowKeys(a, list, at, blockEnd, radius);
      if keys.Some? then p == Rekey(list, WindowLow(at, radius), at, blockEnd, keys.value, now)
      else |list| > radius && Widen(a, list, at, blockEnd, now, if radius == 0 then 1 else radius * 2) == Ok(p)
  {
    hide WindowKeys, Rekey;
  }

  lemma {:induction false} WidenPlaces(a: Arithmetic, dest: seq<Card>, at: nat, block: seq<Card>,
                                       parent: Option<Id>, now: int, radius: nat, list: seq<Card>, p: Placed)
    requires at <= |dest| && Sorted(TreeOrder, dest) && list == Spliced(dest, at, block, parent)
    requires Widen(a, list, at, at + |block|, now, radius) == Ok(p)
    ensures IsPlacement(list, at, at + |block|, now, p)
    ensures Sorted(TreeOrder, p.list) && Separated(p.list, at, at + |block|)
    decreases |list| - radius
  {
    hide *;
    var blockEnd := at + |block|;
    var low, high := WindowLow(at, radius), WindowHigh(|list|, blockEnd, radius);
    var keys := WindowKeys(a, list, at, blockEnd, radius);
    var next := if radius == 0 then 1 else radius * 2;
    WidenUnfolds(a, list, at, blockEnd, now, radius, p);
    if keys.Some? {
      WindowKeysFit(a, list, at, blockEnd, radius);
      RekeyIsPlacement(list, low, at, blockEnd, keys.value, now);
      RekeySorted(dest, at, block, parent, low, high, keys.value, now);
    } else {
      WidenPlaces(a, dest, at, block, parent, now, next, list, p);
    }
  }

  lemma RekeyIsPlacement(list: seq<Card>, low: nat, at: nat, blockEnd: nat, keys: seq<real>, now: int)
    requires low <= at <= blockEnd <= low + |keys| <= |list|
    ensures IsPlacement(list, at, blockEnd, now, Rekey(list, low, at, blockEnd, keys, now))
  {
    var p := Rekey(list, low, at, blockEnd, keys, now);
    forall i | 0 <= i < |list|
      ensures SameBut(list[i], p.list[i], now, at <= i < blockEnd)
      ensures at <= i < blockEnd || p.list[i] != list[i] ==> p.list[i] in p.changed
    {
      assert p.list[i] == Rekeyed(list, low, at, blockEnd, keys, now, i);
      RewrittenCardsAre(list, low, at, blockEnd, keys, now, |list|, p.list[i]);
    }
    forall c | c in p.changed
      ensures Touched(list, at, blockEnd, p.list, c)
    {
      RewrittenCardsAre(list, low, at, blockEnd, keys, now, |list|, c);
      var i :| 0 <= i < |list| && Rewritten(list, low, at, blockEnd, keys, i) &&
        c == Rekeyed(list, low, at, blockEnd, keys, now, i);
      assert p.list[i] == c;
    }
  }

  lemma RekeySorted(dest: seq<Card>, at: nat, block: seq<Card>, parent: Option<Id>,
                    low: nat, high: nat, keys: seq<real>, now: int)
    requires at <= |dest| && Sorted(TreeOrder, dest)
    requires low <= at && at + |block| <= high <= |dest| + |block| && |keys| == high - low
    requires forall i, j :: 0 <= i < j < |keys| ==> keys[i] < keys[j]
    requires low > 0 ==> forall i :: 0 <= i < |keys| ==> Spliced(dest, at, block, parent)[low - 1].key < keys[i]
    requires high < |dest| + |block| ==>
      forall i :: 0 <= i < |keys| ==> keys[i] < Spliced(dest, at, block, parent)[high].key
    ensures var r := Rekey(Spliced(dest, at, block, parent), low, at, at + |block|, keys, now).list;
      Sorted(TreeOrder, r) && Separated(r, at, at + |block|)
  {
    var list := Spliced(dest, at, block, parent);
    var r := Rekey(list, low, at, at + |block|, keys, now).list;
    forall i | 0 <= i < |list|
      ensures low <= i < high ==> r[i].key == keys[i - low]
      ensures i < low ==> r[i] == dest[i]
      ensures i >= high ==> r[i] == dest[i - |block|]
    {
      assert r[i] == Rekeyed(list, low, at, at + |block|, keys, now, i);
    }
    assert low > 0 ==> list[low - 1] == dest[low - 1];
    assert high < |list| ==> list[high] == dest[high - |block|];
    hide Rekey, Rekeyed, Spliced;
    forall i, j | 0 <= i < j < |r|
      ensures TreeLess(r[i], r[j])
      ensures low <= i < high || low <= j < high ==> r[i].key < r[j].key
    {
      RekeyPair(dest, |block|, low, high, keys, r, i, j);
    }
  }

  lemma RekeyPair(dest: seq<Card>, n: nat, low: nat, high: nat, keys: seq<real>, r: seq<Card>, i: nat, j: nat)
    requires Sorted(TreeOrder, dest) && |r| == |dest| + n && low + n <= high <= |r| && |keys| == high - low
    requires i < j < |r|
    requires forall k :: 0 <= k < low ==> r[k] == dest[k]
    requires forall k :: low <= k < high ==> r[k].key == keys[k - low]
    requires forall k :: high <= k < |r| ==> r[k] == dest[k - n]
    requires forall x, y :: 0 <= x < y < |keys| ==> keys[x] < keys[y]
    requires low > 0 ==> forall x :: 0 <= x < |keys| ==> dest[low - 1].key < keys[x]
    requires high < |r| ==> forall x :: 0 <= x < |keys| ==> keys[x] < dest[high - n].key
    ensures TreeLess(r[i], r[j])
    ensures low <= i < high || low <= j < high ==> r[i].key < r[j].key
  {
    if i < low && low <= j < high {
      assert i == low - 1 || Less(TreeOrder, dest[i], dest[low - 1]);
      assert r[j].key == keys[j - low];
    } else if low <= i < high <= j {
      assert j == high || Less(TreeOrder, dest[high - n], dest[j - n]);
      assert r[i].key == keys[i - low];
    } else if low <= i < j < high {
      assert keys[i - low] < keys[j - low];
    } else {
      assert Less(TreeOrder, if i < low then dest[i] else dest[i - n], if j < low then dest[j] else dest[j - n]);
    }
  }

  /** The radii tried: none, one, and then each time twice as far. */
  function Radius(n: nat): (r: nat)
    ensures n > 0 ==> r > 0
  {
    if n == 0 then 0 else if n == 1 then 1 else 2 * Radius(n - 1)
  }

  /** The window of this radius holds its fresh keys, and everything outside is untouched. */
  ghost predicate Respaced(a: Arithmetic, list: seq<Card>, at: nat, blockEnd: nat, radius: nat, p: Placed)
    requires at <= blockEnd <= |list|
  {
    var low, high := WindowLow(at, radius), WindowHigh(|list|, blockEnd, radius);
    var keys := WindowKeys(a, list, at, blockEnd, radius);
    && keys.Some? && |p.list| == |list|
    && (forall i :: low <= i < high ==> p.list[i].key == keys.value[i - low])
    && (forall i :: 0 <= i < low || high <= i < |list| ==> p.list[i] == list[i])
  }

  /** The first window that fits is the one re-spaced, and cards outside it keep their rows; there
      is an error only after the window of the whole list. */
  lemma {:induction false} OutsideWindowUntouched(a: Arithmetic, list: seq<Card>, at: nat, blockEnd: nat, now: int,
                                                  k: nat)
    returns (final: nat)
    requires at <= blockEnd <= |list|
    ensures k <= final
    ensures forall j :: k <= j < final ==> WindowKeys(a, list, at, blockEnd, Radius(j)).None?
    ensures var r := Widen(a, list, at, blockEnd, now, Radius(k));
      if r.Ok? then Respaced(a, list, at, blockEnd, Radius(final), r.value)
      else
        && WindowKeys(a, list, at, blockEnd, Radius(final)).None?
        && WindowLow(at, Radius(final)) == 0 && WindowHigh(|list|, blockEnd, Radius(final)) == |list|
    decreases |list| - Radius(k)
  {
    hide *;
    var radius := Radius(k);
    var keys := WindowKeys(a, list, at, blockEnd, radius);
    final := k;
    WidenStep(a, list, at, blockEnd, now, k);
    if keys.Some? {
      RespacedBy(a, list, at, blockEnd, now, radius);
    } else if WindowLow(at, radius) > 0 || WindowHigh(|list|, blockEnd, radius) < |list| {
      final := OutsideWindowUntouched(a, list, at, blockEnd, now, k + 1);
    }
  }

  lemma WidenStep(a: Arithmetic, list: seq<Card>, at: nat, blockEnd: nat, now: int, k: nat)
    requires at <= blockEnd <= |list|
    ensures var radius := Radius(k);
      var low, high := WindowLow(at, radius), WindowHigh(|list|, blockEnd, radius);
      var keys := WindowKeys(a, list, at, blockEnd, radius);
      if keys.Some? then
        Widen(a, list, at, blockEnd, now, radius) == Ok(Rekey(list, low, at, blockEnd, keys.value, now))
      else if low == 0 && high == |list| then Widen(a, list, at, blockEnd, now, radius).Err?
      else
        && Widen(a, list, at, blockEnd, now, radius) == Widen(a, list, at, blockEnd, now, Radius(k + 1))
        && radius < |list| && radius < Radius(k + 1)
  {
    hide WindowKeys, Rekey;
  }

  lemma RespacedBy(a: Arithmetic, list: seq<Card>, at: nat, blockEnd: nat, now: int, radius: nat)
    requires at <= blockEnd <= |list| && WindowKeys(a, list, at, blockEnd, radius).Some?
    ensures Respaced(a, list, at, blockEnd, radius,
                     Rekey(list, WindowLow(at, radius), at, blockEnd,
                           WindowKeys(a, list, at, blockEnd, radius).value, now))
  {
    hide WindowKeys;
    var low, keys := WindowLow(at, radius), WindowKeys(a, list, at, blockEnd, radius).value;
    var p := Rekey(list, low, at, blockEnd, keys, now);
    assert forall i :: 0 <= i < |list| ==> p.list[i] == Rekeyed(list, low, at, blockEnd, keys, now, i);
  }

  /** Where the two neighbours leave room nothing but the block is written. */
  lemma NeighboursApart(a: Arithmetic, list: seq<Card>, at: nat, blockEnd: nat, now: int, p: Placed)
    requires at <= blockEnd <= |list| && WindowKeys(a, list, at, blockEnd, 0).Some?
    requires Widen(a, list, at, blockEnd, now, 0) == Ok(p)
    ensures |p.list| == |list| && forall i :: 0 <= i < at || blockEnd <= i < |list| ==> p.list[i] == list[i]
  {
    hide *;
    WidenStep(a, list, at, blockEnd, now, 0);
    RadiusZero();
    RespacedBy(a, list, at, blockEnd, now, 0);
    ZeroWindow(a, list, at, blockEnd, p);
  }

  lemma RadiusZero()
    ensures Radius(0) == 0
  {
  }

  lemma ZeroWindow(a: Arithmetic, list: seq<Card>, at: nat, blockEnd: nat, p: Placed)
    requires at <= blockEnd <= |list| && Respaced(a, list, at, blockEnd, 0, p)
    ensures |p.list| == |list| && forall i :: 0 <= i < at || blockEnd <= i < |list| ==> p.list[i] == list[i]
  {
    hide WindowKeys;
  }

  /** Placement fails exactly if no window it could try has room. */
  lemma WidenExact(a: Arithmetic, list: seq<Card>, at: nat, blockEnd: nat, now: int)
    requires at <= blockEnd <= |list|
    ensures Widen(a, list, at, blockEnd, now, 0).Ok? <==>
        exists j :: WindowKeys(a, list, at, blockEnd, Radius(j)).Some?
  {
    hide SpacedKeys, Widen, WindowKeys;
    var final := OutsideWindowUntouched(a, list, at, blockEnd, now, 0);
    assert Radius(0) == 0;
    if Widen(a, list, at, blockEnd, now, 0).Err? {
      forall j
        ensures WindowKeys(a, list, at, blockEnd, Radius(j)).None?
      {
        if j > final {
          RadiusGrows(final, j);
          SameWindow(a, list, at, blockEnd, Radius(final), Radius(j));
        }
      }
    }
  }

  lemma {:induction false} RadiusGrows(i: nat, j: nat)
    requires i <= j
    ensures Radius(i) <= Radius(j)
    decreases j - i
  {
    if i < j { RadiusGrows(i, j - 1); }
  }

  lemma SameWindow(a: Arithmetic, list: seq<Card>, at: nat, blockEnd: nat, r: nat, q: nat)
    requires at <= blockEnd <= |list| && r <= q
    requires WindowLow(at, r) == 0 && WindowHigh(|list|, blockEnd, r) == |list|
    ensures WindowKeys(a, list, at, blockEnd, q) == WindowKeys(a, list, at, blockEnd, r)
  {
    hide SpacedKeys;
  }

  // ----- exact arithmetic never runs out of keys -----

  lemma {:induction false} ExactKeysFit(n: nat, i: nat, previous: real)
    requires i <= n && previous == i as real
    ensures KeysFrom(Exact(), 0.0, n as real + 1.0, n, i, previous).Some?
    decreases n - i
  {
    if i < n {
      ExactMix(i, n);
      ExactKeysFit(n, i + 1, (i + 1) as real);
    }
  }

  lemma ExactMix(i: nat, n: nat)
    ensures Exact().mix(0.0, n as real + 1.0, i, n) == Some((i + 1) as real)
  {
    var high, f := n as real + 1.0, (i + 1) as real / (n as real + 1.0);
    assert f * high == (i + 1) as real;
    assert Interpolated(0.0, high, i, n) == 0.0 * (1.0 - f) + high * f;
  }

  /** Without rounding the last, widest window always fits, so placement never fails. */
  lemma {:induction false} ExactNeverFails(list: seq<Card>, at: nat, blockEnd: nat, now: int, radius: nat)
    requires at <= blockEnd <= |list|
    ensures Widen(Exact(), list, at, blockEnd, now, radius).Ok?
    decreases |list| - radius
  {
    var low, high := WindowLow(at, radius), WindowHigh(|list|, blockEnd, radius);
    var keys := WindowKeys(Exact(), list, at, blockEnd, radius);
    if low == 0 && high == |list| {
      assert Exact().above(0.0, |list|) == |list| as real + 1.0;
      ExactKeysFit(|list|, 0, 0.0);
      assert keys.Some?;
    } else if keys.None? {
      ExactNeverFails(list, at, blockEnd, now, if radius == 0 then 1 else radius * 2);
    }
  }

  // ----- where there is room -----

  /** Arithmetic that finds keys wherever the two neighbours do not have the same one. */
  ghost predicate Roomy(a: Arithmetic)
  {
    forall left: Option<real>, right: Option<real>, count: nat ::
      (left.None? || right.None? || left.value < right.value) ==> SpacedKeys(a, left, right, count).Some?
  }

  lemma Product(x: real, y: real)
    requires x > 0.0 && y > 0.0
    ensures x * y > 0.0
  {
  }

  /** Interpolation grows with the fraction and stays below the upper bound. */
  lemma InterpolatedGrows(low: real, high: real, i: nat, n: nat)
    requires low < high && i < n
    ensures Interpolated(low, high, i, n) > low && Interpolated(low, high, i, n) < high
    ensures i > 0 ==> Interpolated(low, high, i - 1, n) < Interpolated(low, high, i, n)
  {
    var d := n as real + 1.0;
    var f := (i + 1) as real / d;
    assert f > 0.0 && 1.0 - f > 0.0;
    assert Interpolated(low, high, i, n) == low + (high - low) * f == high - (high - low) * (1.0 - f);
    Product(high - low, f);
    Product(high - low, 1.0 - f);
    if i > 0 {
      var e := i as real / d;
      assert Interpolated(low, high, i - 1, n) == low + (high - low) * e;
      assert f - e > 0.0;
      Product(high - low, f - e);
      assert (high - low) * f - (high - low) * e == (high - low) * (f - e);
    }
  }

  lemma {:induction false} ExactKeysBetween(low: real, high: real, n: nat, i: nat, previous: real)
    requires low < high && i <= n && low <= previous
    requires previous == if i == 0 then low else Interpolated(low, high, i - 1, n)
    ensures KeysFrom(Exact(), low, high, n, i, previous).Some?
    decreases n - i
  {
    hide Interpolated;
    if i < n {
      InterpolatedGrows(low, high, i, n);
      assert Exact().mix(low, high, i, n) == Some(Interpolated(low, high, i, n));
      ExactKeysBetween(low, high, n, i + 1, Interpolated(low, high, i, n));
    }
  }

  lemma ExactRoomy()
    ensures Roomy(Exact())
  {
    forall left: Option<real>, right: Option<real>, count: nat | left.None? || right.None? || left.value < right.value
      ensures SpacedKeys(Exact(), left, right, count).Some?
    {
      var low := LowBound(Exact(), left, right, count);
      ExactKeysBetween(low, HighBound(Exact(), left, right, count), count, 0, low);
    }
  }

  /** Where the arithmetic finds keys between different neighbours, no placement fails: the
      widest window has no neighbours at all. */
  lemma {:induction false} RoomyWidens(a: Arithmetic, list: seq<Card>, at: nat, blockEnd: nat, now: int, radius: nat)
    requires Roomy(a) && at <= blockEnd <= |list|
    ensures Widen(a, list, at, blockEnd, now, radius).Ok?
    decreases |list| - radius
  {
    hide SpacedKeys;
    var low, high := WindowLow(at, radius), WindowHigh(|list|, blockEnd, radius);
    var keys := WindowKeys(a, list, at, blockEnd, radius);
    if low == 0 && high == |list| {
      assert SpacedKeys(a, LeftKey(list, low), RightKey(list, high), high - low).Some?;
    } else if keys.None? {
      RoomyWidens(a, list, at, blockEnd, now, if radius == 0 then 1 else radius * 2);
    }
  }

  lemma RoomyPlaces(a: Arithmetic, dest: seq<Card>, at: nat, block: seq<Card>, parent: Option<Id>, now: int)
    requires Roomy(a) && at <= |dest|
    ensures InsertBlock(a, dest, at, block, parent, now).Ok?
  {
    hide Roomy, Widen, Spliced;
    if block != [] { RoomyWidens(a, Spliced(dest, at, block, parent), at, at + |block|, now, 0); }
  }

  // ----- persisting -----

  /** In exact arithmetic no placement is ever refused for lack of keys. */
  lemma ExactPlacementSucceeds(dest: seq<Card>, at: nat, block: seq<Card>, parent: Option<Id>, now: int)
    requires at <= |dest|
    ensures InsertBlock(Exact(), dest, at, block, parent, now).Ok?
  {
    if block != [] {
      ExactNeverFails(Spliced(dest, at, block, parent), at, at + |block|, now, 0);
    }
  }

  /** `CardRepo::restore_snapshot`: an UPDATE of one existing row; the project column stays. */
  function Save(t: Table, c: Card): Table
  {
    if c.id in t then t[c.id := c.(project := t[c.id].project)] else t
  }

  function SaveAll(t: Table, cs: seq<Card>): Table
  {
    if cs == [] then t else SaveAll(Save(t, cs[0]), cs[1..])
  }

  /** Rows of the saved cards hold the cards; every other row is as before. */
  lemma {:induction false} SaveAllRows(t: Table, cs: seq<Card>)
    requires WellKeyed(t) && DistinctIds(Elements(cs))
    requires forall c :: c in cs ==> c.id in t && t[c.id].project == c.project
    ensures WellKeyed(SaveAll(t, cs)) && SaveAll(t, cs).Keys == t.Keys
    ensures forall c :: c in cs ==> SaveAll(t, cs)[c.id] == c
    ensures forall id :: id in t && (forall c :: c in cs ==> c.id != id) ==> SaveAll(t, cs)[id] == t[id]
    decreases |cs|
  {
    if cs != [] {
      var first, rest := cs[0], cs[1..];
      var t1 := Save(t, first);
      assert cs == [first] + rest;
      assert Elements(rest) <= Elements(cs) && first in Elements(cs);
      assert forall c :: c in cs <==> c == first || c in rest;
      SaveAllRows(t1, rest);
      forall c | c in cs
        ensures SaveAll(t1, rest)[c.id] == c
      {
        if c !in rest {
          assert forall d :: d in rest ==> d in Elements(cs);
          assert forall d :: d in rest ==> d.id != first.id;
        }
      }
    }
  }

  /** `dest` is the live children of `parent` without the cards about to be placed. */
  ghost predicate IsDestination(t: Table, project: string, parent: Option<Id>, block: seq<Card>, dest: seq<Card>)
  {
    && Sorted(TreeOrder, dest)
    && (forall c :: c in dest <==> c.id in t && t[c.id] == c && ChildOf(c, project, parent) && c.id !in Ids(block))
  }

  /** Cards that can be placed: live rows of the project, each once. */
  ghost predicate IsBlock(t: Table, project: string, block: seq<Card>)
  {
    && (forall i :: 0 <= i < |block| ==>
          block[i].id in t && t[block[i].id].project == block[i].project == project && block[i].Live())
    && (forall i, j :: 0 <= i < j < |block| ==> block[i].id != block[j].id)
  }

  /** One position of the spliced list. */
  lemma SplicedAt(t: Table, project: string, parent: Option<Id>, dest: seq<Card>, at: nat, block: seq<Card>, i: nat)
    requires WellKeyed(t) && IsDestination(t, project, parent, block, dest) && IsBlock(t, project, block)
    requires at <= |dest| && i < |dest| + |block|
    ensures var c := Spliced(dest, at, block, parent)[i];
      && c.id in t && t[c.id].project == project && ChildOf(c, project, parent)
      && (i < at ==> c == dest[i])
      && (at <= i < at + |block| ==> c.id == block[i - at].id && c.id in Ids(block))
      && (at + |block| <= i ==> c == dest[i - |block|])
      && (!(at <= i < at + |block|) ==> c in dest && c.id !in Ids(block))
  {
    if at <= i < at + |block| { assert Ids(block)[i - at] == block[i - at].id; }
  }

  lemma SplicedDistinct(t: Table, project: string, parent: Option<Id>, dest: seq<Card>, at: nat, block: seq<Card>,
                        i: nat, j: nat)
    requires WellKeyed(t) && IsDestination(t, project, parent, block, dest) && IsBlock(t, project, block)
    requires at <= |dest| && i < j < |dest| + |block|
    ensures Spliced(dest, at, block, parent)[i].id != Spliced(dest, at, block, parent)[j].id
  {
    SplicedAt(t, project, parent, dest, at, block, i);
    SplicedAt(t, project, parent, dest, at, block, j);
    var list := Spliced(dest, at, block, parent);
    if list[i].id == list[j].id && list[i] in dest && list[j] in dest {
      var i', j' := if i < at then i else i - |block|, if j < at then j else j - |block|;
      SortedDistinct(TreeOrder, dest, i', j');
    }
  }

  lemma PlacementDistinct(t: Table, project: string, parent: Option<Id>, dest: seq<Card>, at: nat,
                          block: seq<Card>, now: int, p: Placed)
    requires WellKeyed(t) && IsDestination(t, project, parent, block, dest) && IsBlock(t, project, block)
    requires at <= |dest| && IsPlacement(Spliced(dest, at, block, parent), at, at + |block|, now, p)
    ensures DistinctIds(Elements(p.list)) && forall c :: c in p.changed ==> c in p.list
  {
    hide Spliced, IsDestination, IsBlock, WellKeyed;
    var list := Spliced(dest, at, block, parent);
    assert forall c :: c in p.changed ==> Touched(list, at, at + |block|, p.list, c);
    forall i, j | 0 <= i < j < |p.list|
      ensures p.list[i].id != p.list[j].id
    {
      assert SameBut(list[i], p.list[i], now, at <= i < at + |block|);
      assert SameBut(list[j], p.list[j], now, at <= j < at + |block|);
      SplicedDistinct(t, project, parent, dest, at, block, i, j);
    }
  }

  /** One card of the list and the row it came from. */
  lemma PlacementRow(t: Table, project: string, parent: Option<Id>, dest: seq<Card>, at: nat,
                     block: seq<Card>, now: int, p: Placed, c: Card)
    requires WellKeyed(t) && IsDestination(t, project, parent, block, dest) && IsBlock(t, project, block)
    requires at <= |dest| && IsPlacement(Spliced(dest, at, block, parent), at, at + |block|, now, p)
    requires c in p.list
    ensures c.id in t && t[c.id].project == project && ChildOf(c, project, parent)
    ensures c !in p.changed ==> t[c.id] == c
    ensures c.id !in Ids(block) ==> t[c.id] in dest && ChildOf(t[c.id], project, parent)
  {
    hide Spliced, IsBlock, Sorted;
    var list := Spliced(dest, at, block, parent);
    var i :| 0 <= i < |list| && p.list[i] == c;
    assert SameBut(list[i], p.list[i], now, at <= i < at + |block|);
    SplicedAt(t, project, parent, dest, at, block, i);
  }

  /** The rows a placement reads and writes. */
  lemma PlacementRows(t: Table, project: string, parent: Option<Id>, dest: seq<Card>, at: nat,
                      block: seq<Card>, now: int, p: Placed)
    requires WellKeyed(t) && IsDestination(t, project, parent, block, dest) && IsBlock(t, project, block)
    requires at <= |dest| && IsPlacement(Spliced(dest, at, block, parent), at, at + |block|, now, p)
    ensures DistinctIds(Elements(p.list)) && DistinctIds(Elements(p.changed))
    ensures forall c :: c in p.changed ==> c in p.list
    ensures forall c :: c in p.list ==> c.id in t && t[c.id].project == project && ChildOf(c, project, parent)
    ensures forall c :: c in p.list && c !in p.changed ==> t[c.id] == c
    ensures forall c :: c in p.list && c.id !in Ids(block) ==> t[c.id] in dest && ChildOf(t[c.id], project, parent)
  {
    hide Spliced, IsPlacement, IsDestination, IsBlock, WellKeyed, ChildOf;
    PlacementDistinct(t, project, parent, dest, at, block, now, p);
    forall c | c in p.list
      ensures c.id in t && t[c.id].project == project && ChildOf(c, project, parent)
      ensures c !in p.changed ==> t[c.id] == c
      ensures c.id !in Ids(block) ==> t[c.id] in dest && ChildOf(t[c.id], project, parent)
    {
      PlacementRow(t, project, parent, dest, at, block, now, p, c);
    }
  }

  /** Every destination card and every block card is somewhere in the list. */
  lemma PlacementCovers(t: Table, project: string, parent: Option<Id>, dest: seq<Card>, at: nat,
                        block: seq<Card>, now: int, p: Placed, id: Id)
    requires WellKeyed(t) && IsDestination(t, project, parent, block, dest) && IsBlock(t, project, block)
    requires at <= |dest| && IsPlacement(Spliced(dest, at, block, parent), at, at + |block|, now, p)
    requires id in Ids(block) || (id in t && t[id] in dest)
    ensures exists c :: c in p.list && c.id == id
    ensures id in Ids(block) ==> exists c :: c in p.changed && c.id == id
  {
    var list := Spliced(dest, at, block, parent);
    var i := SplicedHas(t, dest, at, block, parent, id);
    hide Spliced, IsDestination, IsBlock, WellKeyed, Touched;
    assert SameBut(list[i], p.list[i], now, at <= i < at + |block|);
    assert p.list[i] in p.list && p.list[i].id == id;
  }

  lemma SplicedHas(t: Table, dest: seq<Card>, at: nat, block: seq<Card>, parent: Option<Id>, id: Id) returns (i: nat)
    requires WellKeyed(t) && at <= |dest| && (id in Ids(block) || (id in t && t[id] in dest))
    ensures i < |dest| + |block| && Spliced(dest, at, block, parent)[i].id == id
    ensures id in Ids(block) ==> at <= i < at + |block|
  {
    if id in Ids(block) {
      var k :| 0 <= k < |block| && Ids(block)[k] == id;
      i := at + k;
    } else {
      var k :| 0 <= k < |dest| && dest[k] == t[id];
      i := if k < at then k else k + |block|;
    }
  }

  /** Placement read-back at table level: once the changed cards are written, listing the
      parent's live children again gives exactly the list that was built. */
  lemma PlacementReadBack(t: Table, project: string, parent: Option<Id>, dest: seq<Card>, at: nat,
                          block: seq<Card>, now: int, p: Placed)
    requires WellKeyed(t) && IsDestination(t, project, parent, block, dest) && IsBlock(t, project, block)
    requires at <= |dest| && IsPlacement(Spliced(dest, at, block, parent), at, at + |block|, now, p)
    requires Sorted(TreeOrder, p.list)
    ensures WellKeyed(SaveAll(t, p.changed))
    ensures Siblings(SaveAll(t, p.changed), project, parent) == p.list
  {
    var t' := SaveAll(t, p.changed);
    PlacementRows(t, project, parent, dest, at, block, now, p);
    SaveAllRows(t, p.changed);
    forall c | c in p.list
      ensures c.id in t' && t'[c.id] == c
    {
      if c !in p.changed {
        forall d | d in p.changed
          ensures d.id != c.id
        {
          assert d in Elements(p.list) && c in Elements(p.list);
        }
      }
    }
    forall c: Card | c.id in t' && t'[c.id] == c && ChildOf(c, project, parent)
      ensures c in p.list
    {
      if d :| d in p.changed && d.id == c.id {
        assert t'[d.id] == d;
      } else {
        assert t[c.id] == c;
        if c.id in Ids(block) { PlacementCovers(t, project, parent, dest, at, block, now, p, c.id); }
        assert c in dest;
        PlacementCovers(t, project, parent, dest, at, block, now, p, c.id);
        var d :| d in p.list && d.id == c.id;
      }
    }
    SiblingsAre(t', project, parent, p.list);
  }

  /** A sibling list without one card. */
  function Without(s: seq<Card>, id: Id): (r: seq<Card>)
  {
    if s == [] then []
    else if s[0].id == id then Without(s[1..], id)
    else [s[0]] + Without(s[1..], id)
  }

  lemma {:induction false} WithoutMember(s: seq<Card>, id: Id, c: Card)
    ensures c in Without(s, id) <==> c in s && c.id != id
  {
    if s != [] { WithoutMember(s[1..], id, c); }
  }

  lemma {:induction false} WithoutSorted(o: Order, s: seq<Card>, id: Id)
    requires Sorted(o, s)
    ensures Sorted(o, Without(s, id))
  {
    hide Less;
    if s != [] {
      SortedTail(o, s);
      WithoutSorted(o, s[1..], id);
      forall c | c in Without(s[1..], id)
        ensures Less(o, s[0], c)
      {
        WithoutMember(s[1..], id, c);
        var i :| 0 <= i < |s[1..]| && s[1..][i] == c;
        assert c == s[i + 1];
      }
    }
  }

  /** The one card of that id is cut out of the list. */
  lemma {:induction false} WithoutCuts(s: seq<Card>, i: nat)
    requires i < |s| && forall k :: 0 <= k < |s| && k != i ==> s[k].id != s[i].id
    ensures Without(s, s[i].id) == s[..i] + s[i + 1..]
  {
    if i == 0 {
      WithoutAbsent(s[1..], s[0].id);
    } else {
      WithoutCuts(s[1..], i - 1);
      assert s[1..][..i - 1] == s[1..i] && s[1..][i..] == s[i + 1..];
      assert s[..i] == [s[0]] + s[1..i];
    }
  }

  lemma {:induction false} WithoutAbsent(s: seq<Card>, id: Id)
    requires forall c :: c in s ==> c.id != id
    ensures Without(s, id) == s
  {
    if s != [] {
      assert s[0] in s;
      WithoutAbsent(s[1..], id);
    }
  }

  /** The live children of a parent, less one card: where that card can be placed. */
  lemma DestinationFor(t: Table, project: string, parent: Option<Id>, c: Card)
    requires WellKeyed(t)
    ensures IsDestination(t, project, parent, [c], Without(Siblings(t, project, parent), c.id))
  {
    hide Siblings, Without, Sorted;
    var s := Siblings(t, project, parent);
    WithoutSorted(TreeOrder, s, c.id);
    SiblingsMember(t, project, parent);
    assert Ids([c]) == [c.id];
    forall d
      ensures d in Without(s, c.id) <==> d in s && d.id != c.id
    {
      WithoutMember(s, c.id, d);
    }
  }
}
