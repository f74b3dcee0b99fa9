/** Stacking a player's inventory: each stack that is not full draws items
    of the same kind from the slots after it until it is full. */
module InventoryStack {
  import opened Base

  /** An item stack. `meta` is the item meta, `None` when there is none. */
  datatype Stack = Stack(kind: nat, durability: int, meta: Option<nat>, amount: int, maxStack: int)

  /** The inventory's slots; `None` is an empty slot. */
  type Slots = seq<Option<Stack>>

  /** The class a stack is counted in: kind, durability (unless damaged
      stacks may merge) and meta. */
  datatype Key = Key(kind: nat, durability: Option<int>, meta: Option<nat>)

  function KeyOf(st: Stack, ignoreDamaged: bool): Key
  {
    Key(st.kind, if ignoreDamaged then None else Some(st.durability), st.meta)
  }

  /** What one slot contributes to a class's total. */
  function Contrib(o: Option<Stack>, k: Key, ignoreDamaged: bool): int
  {
    if o.Some? && KeyOf(o.value, ignoreDamaged) == k then o.value.amount else 0
  }

  /** The total amount of class `k` across the slots. */
  function Total(s: Slots, k: Key, ignoreDamaged: bool): int
  {
    if |s| == 0 then 0 else Total(s[..|s| - 1], k, ignoreDamaged) + Contrib(s[|s| - 1], k, ignoreDamaged)
  }

  function Amt(o: Option<Stack>): int
  {
    if o.Some? then o.value.amount else 0
  }

  /** The size a stack is filled up to: 64 when the player may stack
      illegitimately, otherwise the item's own maximum. */
  function Cap(st: Stack, ignoreMax: bool): int
  {
    if ignoreMax then 64 else st.maxStack
  }

  /** Two stacks are the same item apart from their amounts. */
  predicate SameItem(a: Stack, b: Stack)
  {
    a.kind == b.kind && a.durability == b.durability && a.meta == b.meta && a.maxStack == b.maxStack
  }

  /** `item2` may be poured into `item`: same kind, same durability unless
      damaged stacks may merge, and both without meta or with equal meta. */
  predicate Mergeable(item: Stack, item2: Stack, ignoreDamaged: bool)
  {
    item2.kind == item.kind && (ignoreDamaged || item.durability == item2.durability)
    && ((item.meta.None? && item2.meta.None?) || (item.meta.Some? && item.meta == item2.meta))
  }

  /** The slots that held a stack before and are empty now. */
  function Nulled(orig: Slots, cur: Slots): set<nat>
    requires |orig| == |cur|
  {
    set s: nat | s < |orig| && orig[s].Some? && cur[s].None?
  }

  /** The relation every intermediate state of the algorithm keeps to the
      starting slots. */
  ghost predicate Invariant(orig: Slots, cur: Slots, ignoreMax: bool, ignoreDamaged: bool)
  {
    && |orig| == |cur|
    && (forall k :: Total(cur, k, ignoreDamaged) == Total(orig, k, ignoreDamaged))
    && (forall n, k :: 0 <= n <= |orig| ==> Total(orig[..n], k, ignoreDamaged) <= Total(cur[..n], k, ignoreDamaged))
    && (forall s :: 0 <= s < |cur| && cur[s].Some? ==> orig[s].Some? && SameItem(orig[s].value, cur[s].value))
    && (forall s :: 0 <= s < |cur| && orig[s].None? ==> cur[s].None?)
    && (forall s :: 0 <= s < |cur| && orig[s].Some? && orig[s].value.amount <= 0 ==> cur[s] == orig[s])
    && (forall s :: 0 <= s < |cur| && cur[s].Some? && orig[s].value.amount > 0 ==> cur[s].value.amount > 0)
    && (forall s :: 0 <= s < |cur| && orig[s].Some? ==>
          Amt(cur[s]) <= Amt(orig[s]) || Amt(cur[s]) <= Cap(orig[s].value, ignoreMax))
  }

  /** A stack that could still take items: positive, below its cap, and
      stackable unless illegitimate stacking is allowed. */
  predicate Open(o: Option<Stack>, ignoreMax: bool)
  {
    o.Some? && 0 < o.value.amount < Cap(o.value, ignoreMax) && (ignoreMax || o.value.maxStack != 1)
  }

  predicate Positive(o: Option<Stack>)
  {
    o.Some? && o.value.amount > 0
  }

  /** No open slot before `upTo` is followed by a positive stack it could
      draw from. */
  predicate Saturated(s: Slots, upTo: int, ignoreMax: bool, ignoreDamaged: bool)
  {
    forall i, j :: 0 <= i < j < |s| && i < upTo && Open(s[i], ignoreMax) && Positive(s[j]) ==>
      !Mergeable(s[i].value, s[j].value, ignoreDamaged)
  }

  /** `next` differs from `cur` only from slot `from` on, and there an empty
      slot stays empty, a stack stays the same item and a non-positive stack
      is left alone. */
  predicate Later(cur: Slots, next: Slots, from: nat)
  {
    && |cur| == |next|
    && (forall s :: 0 <= s < |cur| && s < from ==> next[s] == cur[s])
    && (forall s :: 0 <= s < |cur| && cur[s].None? ==> next[s].None?)
    && (forall s :: 0 <= s < |cur| && next[s].Some? ==> cur[s].Some? && SameItem(cur[s].value, next[s].value))
    && (forall s :: 0 <= s < |cur| && cur[s].Some? && cur[s].value.amount <= 0 ==> next[s] == cur[s])
  }

  /** A pour from a positive slot `j` into a positive slot `i < j` that
      keeps both the same items keeps `Later` from `i`. */
  lemma LaterStep(cur: Slots, prev: Slots, next: Slots, i: nat, j: nat)
    requires Later(cur, prev, i) && i < j < |prev| && |next| == |prev|
    requires forall s :: 0 <= s < |prev| && s != i && s != j ==> next[s] == prev[s]
    requires Positive(prev[i]) && next[i].Some? && SameItem(prev[i].value, next[i].value)
    requires Positive(prev[j]) && (next[j].None? || SameItem(prev[j].value, next[j].value))
    ensures Later(cur, next, i)
  {
  }

  /** Work done from slot `i` on leaves the slots before `i` saturated. */
  lemma SaturatedLater(prev: Slots, next: Slots, i: nat, ignoreMax: bool, ignoreDamaged: bool)
    requires Saturated(prev, i, ignoreMax, ignoreDamaged) && Later(prev, next, i)
    ensures Saturated(next, i, ignoreMax, ignoreDamaged)
  {
    forall a, b | 0 <= a < b < |next| && a < i && Open(next[a], ignoreMax) && Positive(next[b])
      ensures !Mergeable(next[a].value, next[b].value, ignoreDamaged)
    {
      assert next[a] == prev[a];
      assert prev[b].Some? && SameItem(prev[b].value, next[b].value);
      if prev[b].value.amount <= 0 {
        assert next[b] == prev[b];
      }
    }
  }

  // ---------------------------------------------------------------------
  // Totals under updates

  lemma {:induction false} PointUpdate(s: Slots, j: nat, x: Option<Stack>, n: nat, k: Key, ig: bool)
    requires j < |s| && n <= |s|
    ensures Total(s[j := x][..n], k, ig)
         == Total(s[..n], k, ig) + (if j < n then Contrib(x, k, ig) - Contrib(s[j], k, ig) else 0)
    decreases n
  {
    var t := s[j := x];
    if n > 0 {
      PointUpdate(s, j, x, n - 1, k, ig);
      assert t[..n][..n - 1] == t[..n - 1];
      assert s[..n][..n - 1] == s[..n - 1];
    }
  }

  /** Moving `d >= 0` items of class `key` from slot `j` to an earlier slot
      `i` keeps every class's total and never lowers a prefix's total. */
  lemma Transfer(s: Slots, i: nat, j: nat, x: Option<Stack>, y: Option<Stack>, key: Key, d: int, ig: bool)
    requires i < j < |s| && d >= 0
    requires forall k :: Contrib(x, k, ig) - Contrib(s[i], k, ig) == (if k == key then d else 0)
    requires forall k :: Contrib(y, k, ig) - Contrib(s[j], k, ig) == (if k == key then -d else 0)
    ensures forall k :: Total(s[i := x][j := y], k, ig) == Total(s, k, ig)
    ensures forall n, k :: 0 <= n <= |s| ==> Total(s[..n], k, ig) <= Total(s[i := x][j := y][..n], k, ig)
  {
    var t1 := s[i := x];
    var t := t1[j := y];
    assert t1[j] == s[j];
    forall n, k | 0 <= n <= |s|
      ensures Total(s[..n], k, ig) <= Total(t[..n], k, ig)
      ensures n == |s| ==> Total(t[..n], k, ig) == Total(s[..n], k, ig)
    {
      PointUpdate(s, i, x, n, k, ig);
      PointUpdate(t1, j, y, n, k, ig);
    }
    forall k ensures Total(t, k, ig) == Total(s, k, ig)
    {
      assert t[..|s|] == t;
      assert s[..|s|] == s;
    }
  }

  /** A step that changes only slots `i < j`, keeps every total, never
      lowers a prefix total, keeps slot `i` the same item within its cap and
      either empties slot `j` or only lowers it, keeps the invariant. */
  lemma KeepsInvariant(orig: Slots, cur: Slots, next: Slots, i: nat, j: nat, ignoreMax: bool, ignoreDamaged: bool)
    requires i < j < |cur| && Invariant(orig, cur, ignoreMax, ignoreDamaged)
    requires |next| == |cur|
    requires forall k :: Total(next, k, ignoreDamaged) == Total(cur, k, ignoreDamaged)
    requires forall n, k :: 0 <= n <= |cur| ==> Total(cur[..n], k, ignoreDamaged) <= Total(next[..n], k, ignoreDamaged)
    requires forall s :: 0 <= s < |cur| && s != i && s != j ==> next[s] == cur[s]
    requires cur[i].Some? && next[i].Some? && SameItem(cur[i].value, next[i].value)
    requires 0 < cur[i].value.amount && 0 < next[i].value.amount <= Cap(cur[i].value, ignoreMax)
    requires cur[j].Some? && 0 < cur[j].value.amount
    requires next[j].None? || (SameItem(cur[j].value, next[j].value) && 0 < next[j].value.amount <= cur[j].value.amount)
    ensures Invariant(orig, next, ignoreMax, ignoreDamaged)
  {
    assert orig[i].Some? && orig[i].value.amount > 0 && SameItem(orig[i].value, cur[i].value);
    assert orig[j].Some? && orig[j].value.amount > 0 && SameItem(orig[j].value, cur[j].value);
    forall n, k | 0 <= n <= |orig|
      ensures Total(orig[..n], k, ignoreDamaged) <= Total(next[..n], k, ignoreDamaged)
    {
      assert Total(orig[..n], k, ignoreDamaged) <= Total(cur[..n], k, ignoreDamaged);
    }
  }

  /** Filling slot `i` up to the full cap from a bigger mergeable stack in
      slot `j` keeps the invariant and empties no slot. */
  lemma PartialStep(orig: Slots, cur: Slots, next: Slots, i: nat, j: nat, max: int, ignoreMax: bool, ignoreDamaged: bool)
    requires i < j < |cur| && Invariant(orig, cur, ignoreMax, ignoreDamaged)
    requires cur[i].Some? && cur[j].Some? && Mergeable(cur[i].value, cur[j].value, ignoreDamaged)
    requires 0 < cur[i].value.amount <= max && max == Cap(cur[i].value, ignoreMax)
    requires cur[j].value.amount > max - cur[i].value.amount
    requires next == cur[i := Some(cur[i].value.(amount := max))]
                        [j := Some(cur[j].value.(amount := cur[j].value.amount - (max - cur[i].value.amount)))]
    ensures Invariant(orig, next, ignoreMax, ignoreDamaged)
    ensures |Nulled(orig, next)| == |Nulled(orig, cur)|
  {
    var it, item2 := cur[i].value, cur[j].value;
    var key := KeyOf(it, ignoreDamaged);
    assert KeyOf(item2, ignoreDamaged) == key;
    Transfer(cur, i, j, next[i], next[j], key, max - it.amount, ignoreDamaged);
    assert forall s :: 0 <= s < |cur| && s != i && s != j ==> next[s] == cur[s];
    KeepsInvariant(orig, cur, next, i, j, ignoreMax, ignoreDamaged);
    assert Nulled(orig, next) == Nulled(orig, cur);
  }

  /** Pouring the whole mergeable stack of slot `j` into slot `i`, when it
      fits, keeps the invariant and empties exactly slot `j`. */
  lemma FullStep(orig: Slots, cur: Slots, next: Slots, i: nat, j: nat, max: int, ignoreMax: bool, ignoreDamaged: bool)
    requires i < j < |cur| && Invariant(orig, cur, ignoreMax, ignoreDamaged)
    requires cur[i].Some? && cur[j].Some? && Mergeable(cur[i].value, cur[j].value, ignoreDamaged)
    requires 0 < cur[i].value.amount <= max && max == Cap(cur[i].value, ignoreMax)
    requires 0 < cur[j].value.amount <= max - cur[i].value.amount
    requires next == cur[i := Some(cur[i].value.(amount := cur[i].value.amount + cur[j].value.amount))][j := None]
    ensures Invariant(orig, next, ignoreMax, ignoreDamaged)
    ensures |Nulled(orig, next)| == |Nulled(orig, cur)| + 1
  {
    var it, item2 := cur[i].value, cur[j].value;
    var key := KeyOf(it, ignoreDamaged);
    assert KeyOf(item2, ignoreDamaged) == key;
    Transfer(cur, i, j, next[i], None, key, item2.amount, ignoreDamaged);
    assert forall s :: 0 <= s < |cur| && s != i && s != j ==> next[s] == cur[s];
    KeepsInvariant(orig, cur, next, i, j, ignoreMax, ignoreDamaged);
    NulledAddsOne(orig, cur, next, j);
  }

  /** Emptying one more slot, and no other change between full and empty,
      adds exactly that slot to the emptied ones. */
  lemma NulledAddsOne(orig: Slots, cur: Slots, next: Slots, j: nat)
    requires |orig| == |cur| == |next| && j < |cur|
    requires orig[j].Some? && cur[j].Some? && next[j].None?
    requires forall s :: 0 <= s < |cur| && s != j ==> (next[s].None? <==> cur[s].None?)
    ensures |Nulled(orig, next)| == |Nulled(orig, cur)| + 1
  {
    assert Nulled(orig, next) == Nulled(orig, cur) + {j};
    assert j !in Nulled(orig, cur);
  }

  // ---------------------------------------------------------------------
  // The algorithm

  /** The inner loop for slot `i`: pour later mergeable stacks into it
      until it is full. `absorbed` counts the stacks emptied into it. */
  method FillSlot(orig: Slots, cur: Slots, i: nat, ignoreMax: bool, ignoreDamaged: bool)
    returns (next: Slots, absorbed: nat)
    requires i < |cur| && Invariant(orig, cur, ignoreMax, ignoreDamaged)
    requires cur[i].Some? && cur[i].value.amount > 0 && cur[i].value.amount < Cap(cur[i].value, ignoreMax)
    ensures Invariant(orig, next, ignoreMax, ignoreDamaged)
    ensures |Nulled(orig, next)| == |Nulled(orig, cur)| + absorbed
    ensures Later(cur, next, i)
    ensures next[i].Some? && SameItem(cur[i].value, next[i].value)
    ensures next[i].value.amount == Cap(next[i].value, ignoreMax)
            || forall j :: i < j < |next| && Positive(next[j]) ==> !Mergeable(next[i].value, next[j].value, ignoreDamaged)
  {
    var item := cur[i].value;
    var max := Cap(item, ignoreMax);
    var needed := max - item.amount;
    next := cur;
    absorbed := 0;
    var j := i + 1;
    FillStart(orig, cur, i, ignoreMax, ignoreDamaged);
    while j < |next|
      invariant Filling(orig, cur, next, i, j, item, max, ignoreMax, ignoreDamaged)
      invariant needed == max - next[i].value.amount
      invariant |Nulled(orig, next)| == |Nulled(orig, cur)| + absorbed
      decreases |next| - j
    {
      var item2o := next[j];
      var it := next[i].value;
      if item2o.None? || item2o.value.amount <= 0 || (!ignoreMax && it.maxStack == 1) {
        FillSkip(orig, cur, next, i, j, item, max, ignoreMax, ignoreDamaged);
        j := j + 1;
        continue;
      }
      var item2 := item2o.value;
      if Mergeable(it, item2, ignoreDamaged) {
        if item2.amount > needed {
          var prev := next;
          next := next[i := Some(it.(amount := max))][j := Some(item2.(amount := item2.amount - needed))];
          FillPartial(orig, cur, prev, next, i, j, item, max, ignoreMax, ignoreDamaged);
          return;
        }
        var prev := next;
        next := next[i := Some(it.(amount := it.amount + item2.amount))][j := None];
        FillFull(orig, cur, prev, next, i, j, item, max, ignoreMax, ignoreDamaged);
        needed := max - next[i].value.amount;
        absorbed := absorbed + 1;
      } else {
        FillSkip(orig, cur, next, i, j, item, max, ignoreMax, ignoreDamaged);
      }
      j := j + 1;
    }
  }

  /** The inner loop's invariant before looking at slot `j`: the totals
      invariant holds, slot `i` still holds `item` below or at `max`, the
      later slots only lost items, and no positive stack between `i` and `j`
      could be poured into slot `i`. */
  ghost predicate Filling(orig: Slots, cur: Slots, next: Slots, i: nat, j: nat, item: Stack, max: int,
                          ignoreMax: bool, ignoreDamaged: bool)
  {
    && i < j <= |next|
    && max == Cap(item, ignoreMax) && (ignoreMax || item.maxStack != 1)
    && Invariant(orig, next, ignoreMax, ignoreDamaged)
    && next[i].Some? && SameItem(item, next[i].value) && 0 < next[i].value.amount <= max
    && Later(cur, next, i)
    && forall j' :: i < j' < j && Positive(next[j']) ==> !Mergeable(next[i].value, next[j'].value, ignoreDamaged)
  }

  lemma FillStart(orig: Slots, cur: Slots, i: nat, ignoreMax: bool, ignoreDamaged: bool)
    requires i < |cur| && Invariant(orig, cur, ignoreMax, ignoreDamaged)
    requires cur[i].Some? && cur[i].value.amount > 0 && cur[i].value.amount < Cap(cur[i].value, ignoreMax)
    ensures Filling(orig, cur, cur, i, i + 1, cur[i].value, Cap(cur[i].value, ignoreMax), ignoreMax, ignoreDamaged)
  {
  }

  /** A slot that is empty, non-positive or not mergeable is passed over. */
  lemma FillSkip(orig: Slots, cur: Slots, next: Slots, i: nat, j: nat, item: Stack, max: int,
                 ignoreMax: bool, ignoreDamaged: bool)
    requires Filling(orig, cur, next, i, j, item, max, ignoreMax, ignoreDamaged) && j < |next|
    requires !Positive(next[j]) || (!ignoreMax && next[i].value.maxStack == 1)
             || !Mergeable(next[i].value, next[j].value, ignoreDamaged)
    ensures Filling(orig, cur, next, i, j + 1, item, max, ignoreMax, ignoreDamaged)
  {
    NoMergeStep(next, next, i, j, ignoreDamaged);
  }

  /** A later stack larger than what is needed fills slot `i` to `max`. */
  lemma FillPartial(orig: Slots, cur: Slots, prev: Slots, next: Slots, i: nat, j: nat, item: Stack, max: int,
                    ignoreMax: bool, ignoreDamaged: bool)
    requires Filling(orig, cur, prev, i, j, item, max, ignoreMax, ignoreDamaged) && j < |prev|
    requires prev[j].Some? && Mergeable(prev[i].value, prev[j].value, ignoreDamaged)
    requires prev[j].value.amount > max - prev[i].value.amount
    requires next == prev[i := Some(prev[i].value.(amount := max))]
                         [j := Some(prev[j].value.(amount := prev[j].value.amount - (max - prev[i].value.amount)))]
    ensures Invariant(orig, next, ignoreMax, ignoreDamaged)
    ensures |Nulled(orig, next)| == |Nulled(orig, prev)|
    ensures Later(cur, next, i)
    ensures next[i].Some? && SameItem(item, next[i].value) && next[i].value.amount == Cap(next[i].value, ignoreMax)
  {
    PartialStep(orig, prev, next, i, j, max, ignoreMax, ignoreDamaged);
    LaterStep(cur, prev, next, i, j);
  }

  /** A later stack that fits is poured whole into slot `i` and its slot
      emptied. */
  lemma FillFull(orig: Slots, cur: Slots, prev: Slots, next: Slots, i: nat, j: nat, item: Stack, max: int,
                 ignoreMax: bool, ignoreDamaged: bool)
    requires Filling(orig, cur, prev, i, j, item, max, ignoreMax, ignoreDamaged) && j < |prev|
    requires prev[j].Some? && prev[j].value.amount > 0 && Mergeable(prev[i].value, prev[j].value, ignoreDamaged)
    requires prev[j].value.amount <= max - prev[i].value.amount
    requires next == prev[i := Some(prev[i].value.(amount := prev[i].value.amount + prev[j].value.amount))][j := None]
    ensures Filling(orig, cur, next, i, j + 1, item, max, ignoreMax, ignoreDamaged)
    ensures |Nulled(orig, next)| == |Nulled(orig, prev)| + 1
  {
    FullStep(orig, prev, next, i, j, max, ignoreMax, ignoreDamaged);
    LaterStep(cur, prev, next, i, j);
    NoMergeStep(prev, next, i, j, ignoreDamaged);
  }

  /** Looking at one more later slot keeps the filled slot unmergeable with
      every positive stack seen so far. */
  lemma NoMergeStep(prev: Slots, next: Slots, i: nat, j: nat, ignoreDamaged: bool)
    requires i < j < |prev| == |next| && prev[i].Some? && next[i].Some?
    requires SameItem(prev[i].value, next[i].value)
    requires forall s :: 0 <= s < |prev| && s != i && s != j ==> next[s] == prev[s]
    requires forall j' :: i < j' < j && Positive(prev[j']) ==> !Mergeable(prev[i].value, prev[j'].value, ignoreDamaged)
    requires !Positive(next[j]) || !Mergeable(next[i].value, next[j].value, ignoreDamaged)
    ensures forall j' :: i < j' <= j && Positive(next[j']) ==> !Mergeable(next[i].value, next[j'].value, ignoreDamaged)
  {
  }

  /** A slot that is full or has no later stack to draw from extends the
      saturated prefix by one. */
  lemma SaturatedNext(s: Slots, i: nat, ignoreMax: bool, ignoreDamaged: bool)
    requires i < |s| && Saturated(s, i, ignoreMax, ignoreDamaged) && s[i].Some?
    requires s[i].value.amount == Cap(s[i].value, ignoreMax)
             || forall j :: i < j < |s| && Positive(s[j]) ==> !Mergeable(s[i].value, s[j].value, ignoreDamaged)
    ensures Saturated(s, i + 1, ignoreMax, ignoreDamaged)
  {
  }

  lemma NulledWitness(orig: Slots, cur: Slots)
    requires |orig| == |cur|
    ensures |Nulled(orig, cur)| > 0 <==> exists s :: 0 <= s < |orig| && orig[s].Some? && cur[s].None?
  {
    if |Nulled(orig, cur)| > 0 {
      var s :| s in Nulled(orig, cur);
      assert 0 <= s < |orig| && orig[s].Some? && cur[s].None?;
    }
    if exists s :: 0 <= s < |orig| && orig[s].Some? && cur[s].None? {
      var s :| 0 <= s < |orig| && orig[s].Some? && cur[s].None?;
      assert s in Nulled(orig, cur);
    }
  }

  /** `stackPlayerInventory`: returns the slots after stacking, the number
      of stacks emptied into earlier ones, and whether the slots are written
      back to the inventory. */
  method StackInventory(items: Slots, ignoreMax: bool, ignoreDamaged: bool)
    returns (result: Slots, affected: nat, writeBack: bool)
    ensures |result| == |items|
    ensures forall k :: Total(result, k, ignoreDamaged) == Total(items, k, ignoreDamaged)
    ensures forall n, k :: 0 <= n <= |items| ==> Total(items[..n], k, ignoreDamaged) <= Total(result[..n], k, ignoreDamaged)
    ensures forall s :: 0 <= s < |items| && items[s].Some? ==>
              Amt(result[s]) <= Amt(items[s]) || Amt(result[s]) <= Cap(items[s].value, ignoreMax)
    ensures forall s :: 0 <= s < |items| && result[s].Some? ==> items[s].Some? && SameItem(items[s].value, result[s].value)
    ensures forall s :: 0 <= s < |items| && items[s].None? ==> result[s].None?
    ensures forall s :: 0 <= s < |items| && items[s].Some? && items[s].value.amount <= 0 ==> result[s] == items[s]
    ensures affected == |Nulled(items, result)|
    ensures writeBack <==> exists s :: 0 <= s < |items| && items[s].Some? && result[s].None?
    ensures forall i, j :: 0 <= i < j < |result| && Open(result[i], ignoreMax) && Positive(result[j]) ==>
              !Mergeable(result[i].value, result[j].value, ignoreDamaged)
  {
    result := items;
    affected := 0;
    var i := 0;
    while i < |result|
      invariant 0 <= i <= |result|
      invariant Invariant(items, result, ignoreMax, ignoreDamaged)
      invariant affected == |Nulled(items, result)|
      invariant Saturated(result, i, ignoreMax, ignoreDamaged)
      decreases |result| - i
    {
      var item := result[i];
      if item.None? || item.value.amount <= 0 || (!ignoreMax && item.value.maxStack == 1) {
        assert !Open(result[i], ignoreMax);
        i := i + 1;
        continue;
      }
      var max := Cap(item.value, ignoreMax);
      if item.value.amount < max {
        var absorbed;
        var prev := result;
        result, absorbed := FillSlot(items, result, i, ignoreMax, ignoreDamaged);
        affected := affected + absorbed;
        SaturatedLater(prev, result, i, ignoreMax, ignoreDamaged);
        SaturatedNext(result, i, ignoreMax, ignoreDamaged);
      } else {
        assert !Open(result[i], ignoreMax);
      }
      i := i + 1;
    }
    writeBack := affected > 0;
    NulledWitness(items, result);
  }
}
