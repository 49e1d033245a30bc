/** The "random inspiration" picker of `App.tsx`: a two-state machine over the
    whole, unfiltered store. `index` is `randomIndex` and `shown` is
    `randomItem`; the modal is open exactly when `shown` holds an item. */
module RandomPicker {
  import opened Wrappers
  import opened Items

  datatype Picker = Picker(index: nat, shown: Option<SavedItem>) {

    predicate Idle() {
      shown.None?
    }
  }

  /** Before the first pick: index 0 and nothing shown. */
  const Initial: Picker := Picker(0, None)

  /** The states the transitions below keep: a shown item is the store's item
      at the index, and a non-empty store is indexed within bounds. */
  predicate Valid(store: seq<SavedItem>, p: Picker) {
    && (|store| > 0 ==> p.index < |store|)
    && (p.shown.Some? ==> p.index < |store| && p.shown.value == store[p.index])
  }

  lemma InitialValid(store: seq<SavedItem>)
    ensures Valid(store, Initial) && Initial.Idle()
  {
  }

  /** "Inspire me". `roll` stands for `Math.floor(Math.random() * N)`, which is
      any index below `N` when the store is non-empty and 0 when it is empty;
      an empty store yields `undefined`, so nothing is shown. */
  function PickRandom(store: seq<SavedItem>, roll: nat): (r: Picker)
    requires roll == 0 || roll < |store|
    ensures r.index == roll
    ensures |store| > 0 ==> r.index < |store| && r.shown == Some(store[roll])
    ensures |store| == 0 ==> r.Idle()
    ensures Valid(store, r)
  {
    Picker(roll, if roll < |store| then Some(store[roll]) else None)
  }

  /** "Next": one step round the whole store from the current index. */
  function PickNext(store: seq<SavedItem>, p: Picker): (r: Picker)
    requires |store| > 0
    ensures r.index < |store| && r.shown == Some(store[r.index])
    ensures p.index + 1 < |store| ==> r.index == p.index + 1
    ensures p.index + 1 == |store| ==> r.index == 0
    ensures Valid(store, r)
  {
    var next := (p.index + 1) % |store|;
    Picker(next, Some(store[next]))
  }

  /** Closing the modal: back to Idle, the index is kept for the next "Next". */
  function Dismiss(p: Picker): (r: Picker)
    ensures r.Idle() && r.index == p.index
  {
    Picker(p.index, None)
  }

  lemma DismissValid(store: seq<SavedItem>, p: Picker)
    requires Valid(store, p)
    ensures Valid(store, Dismiss(p))
  {
  }

  /** `k` presses of "Next". */
  function Advance(store: seq<SavedItem>, p: Picker, k: nat): Picker
    requires |store| > 0
    decreases k
  {
    if k == 0 then p else PickNext(store, Advance(store, p, k - 1))
  }

  lemma DivModUnique(x: int, n: int, q: int, r: int)
    requires n > 0 && 0 <= r < n && x == q * n + r
    ensures x % n == r
  {
    var d := x / n - q;
    assert d * n == r - x % n;
    if d > 0 {
      MulAtLeast(d, n);
      assert false;
    } else if d < 0 {
      MulAtLeast(-d, n);
      assert false;
    }
  }

  lemma {:induction false} MulAtLeast(a: int, n: int)
    requires a >= 1 && n > 0
    ensures a * n >= n
    decreases a
  {
    if a > 1 {
      MulAtLeast(a - 1, n);
      assert a * n == (a - 1) * n + n;
    }
  }

  lemma ModSucc(a: nat, n: nat)
    requires n > 0
    ensures (a % n + 1) % n == (a + 1) % n
  {
    var q, r := a / n, a % n;
    assert a == q * n + r;
    if r + 1 < n {
      DivModUnique(a + 1, n, q, r + 1);
      DivModUnique(r + 1, n, 0, r + 1);
    } else {
      DivModUnique(a + 1, n, q + 1, 0);
      DivModUnique(r + 1, n, 1, 0);
    }
  }

  /** After `k` presses of "Next" from index `i`, the picker shows the item at
      `(i + k) mod N`. */
  lemma {:induction false} AdvanceIndex(store: seq<SavedItem>, p: Picker, k: nat)
    requires |store| > 0 && p.index < |store|
    ensures Advance(store, p, k).index == (p.index + k) % |store|
    decreases k
  {
    if k == 0 {
      DivModUnique(p.index, |store|, 0, p.index);
    } else {
      AdvanceIndex(store, p, k - 1);
      ModSucc(p.index + k - 1, |store|);
    }
  }

  /** N presses of "Next" come back to the item the picker started on. */
  lemma FullCycle(store: seq<SavedItem>, p: Picker)
    requires |store| > 0 && Valid(store, p) && p.shown.Some?
    ensures Advance(store, p, |store|) == p
  {
    AdvanceIndex(store, p, |store|);
    DivModUnique(p.index + |store|, |store|, 1, p.index);
  }

  /** Every item of the store can be drawn, whatever the query hides: the
      picker is never given the query. */
  lemma EveryItemCanBeDrawn(store: seq<SavedItem>, x: SavedItem)
    requires x in store
    ensures exists roll: nat :: roll < |store| && PickRandom(store, roll).shown == Some(x)
  {
    var j :| 0 <= j < |store| && store[j] == x;
    assert PickRandom(store, j).shown == Some(x);
  }
}
