/** Saving the fork table to the registry and restoring it: 16-bit keys and codes packed in 32-bit words. */
module ForkTable {
  const TABLE_SIZE: nat := 512
  const MAX_FORKS: nat := 16
  const HALF: nat := 0x1_0000

  type Short = n: nat | n < HALF
  type Word = n: nat | n < HALF * HALF
  type Forks = t: seq<Short> | |t| == TABLE_SIZE witness seq(TABLE_SIZE, _ => 0)

  /** `key << 16 | fork`: the halves do not overlap, so the bitwise or is a sum. */
  function Pack(key: Short, fork: Short): Word { key * HALF + fork }
  function KeyOf(w: Word): Short { w / HALF }
  function ForkOf(w: Word): Short { w % HALF }

  lemma PackRoundTrip(key: Short, fork: Short)
    ensures KeyOf(Pack(key, fork)) == key && ForkOf(Pack(key, fork)) == fork
  {
  }

  /** How many keys below `n` are forked. */
  function Count(t: Forks, n: nat): nat
    requires n <= TABLE_SIZE
  {
    if n == 0 then 0 else Count(t, n - 1) + if t[n-1] != 0 then 1 else 0
  }

  /** The words for the forked keys below `n`, lowest first, as long as there is room. */
  function Packed(t: Forks, n: nat): (words: seq<Word>)
    requires n <= TABLE_SIZE
    ensures |words| == if Count(t, n) <= MAX_FORKS then Count(t, n) else MAX_FORKS
  {
    if n == 0 then []
    else
      var before := Packed(t, n - 1);
      if t[n-1] != 0 && |before| < MAX_FORKS then before + [Pack(n - 1, t[n-1])] else before
  }

  /** What restoring the words makes of a table; words for keys beyond it are skipped. */
  function Restored(words: seq<Word>, t: Forks): Forks {
    if words == [] then t
    else
      var before, last := Restored(words[..|words|-1], t), words[|words|-1];
      if KeyOf(last) < TABLE_SIZE then before[KeyOf(last) := ForkOf(last)] else before
  }

  lemma {:induction false} PackedStops(t: Forks, n: nat, m: nat)
    requires n <= m <= TABLE_SIZE && |Packed(t, n)| == MAX_FORKS
    ensures Packed(t, m) == Packed(t, n)
    decreases m
  {
    if n < m {
      PackedStops(t, n, m - 1);
    }
  }

  /** The words are exactly those of these keys: upper 16 bits the key, lower 16 bits its fork. */
  ghost predicate Stores(words: seq<Word>, t: Forks, keys: seq<nat>) {
    && |words| == |keys|
    && forall i :: 0 <= i < |keys| ==> keys[i] < 512 && words[i] == keys[i] * 0x1_0000 + t[keys[i]]
  }

  /** Ascending forked keys below `n`, at most 16, and no lower one left out. */
  ghost predicate LowestForks(t: Forks, keys: seq<nat>, n: nat)
    requires n <= 512
  {
    && |keys| <= 16
    && (forall i :: 0 <= i < |keys| ==> keys[i] < n && t[keys[i]] != 0)
    && (forall i, j :: 0 <= i < j < |keys| ==> keys[i] < keys[j])
    && (forall k :: 0 <= k < n && t[k] != 0 ==> k in keys || (|keys| == 16 && keys[15] < k))
  }

  function OneMoreKey(t: Forks, keys: seq<nat>, k: nat): seq<nat>
    requires k < 512
  {
    if t[k] != 0 && |keys| < 16 then keys + [k] else keys
  }

  lemma LowestForksOneMore(t: Forks, keys: seq<nat>, n: nat)
    requires n < 512 && LowestForks(t, keys, n)
    ensures LowestForks(t, OneMoreKey(t, keys, n), n + 1)
  {
    var more := OneMoreKey(t, keys, n);
    forall k | 0 <= k < n + 1 && t[k] != 0
      ensures k in more || (|more| == 16 && more[15] < k)
    {
      if k < n && k in keys {
        var i :| 0 <= i < |keys| && keys[i] == k;
        assert more[i] == k;
      } else if k == n && |keys| < 16 {
        assert more[|keys|] == k;
      }
    }
  }

  lemma StoresOneMore(t: Forks, keys: seq<nat>, n: nat)
    requires n < 512 && Stores(Packed(t, n), t, keys)
    ensures Stores(Packed(t, n + 1), t, OneMoreKey(t, keys, n))
  {
  }

  /** What is saved are the 16 lowest forked keys, or all if there are fewer, lowest first. */
  lemma {:induction false} SavesLowestForks(t: Forks, n: nat) returns (keys: seq<nat>)
    requires n <= 512
    ensures LowestForks(t, keys, n) && Stores(Packed(t, n), t, keys)
    decreases n
  {
    keys := [];
    if n > 0 {
      keys := SavesLowestForks(t, n - 1);
      LowestForksOneMore(t, keys, n - 1);
      StoresOneMore(t, keys, n - 1);
      keys := OneMoreKey(t, keys, n - 1);
    }
  }

  method Save(forks: array<Short>) returns (words: seq<Word>)
    requires forks.Length == TABLE_SIZE
    ensures words == Packed(forks[..], TABLE_SIZE)
  {
    var values := new Word[MAX_FORKS];
    var top := 0;
    var key := 0;
    ghost var t: Forks := forks[..];
    while key < TABLE_SIZE
      invariant 0 <= key <= TABLE_SIZE && 0 <= top < MAX_FORKS
      invariant forks[..] == t
      invariant values[..top] == Packed(t, key)
    {
      var value := forks[key];
      if value != 0 {
        values[top] := Pack(key, value);
        top := top + 1;
        assert values[..top] == Packed(t, key) + [Pack(key, value)] == Packed(t, key + 1);
        if top == MAX_FORKS {
          PackedStops(t, key + 1, TABLE_SIZE);
          break;
        }
      }
      key := key + 1;
    }
    words := values[..top];
  }

  /** The bound check lets the key TABLE_SIZE pass, which has no entry. */
  method Restore(words: seq<Word>, forks: array<Short>)
    requires forks.Length == TABLE_SIZE
    requires forall i :: 0 <= i < |words| ==> KeyOf(words[i]) != TABLE_SIZE
    modifies forks
    ensures forks[..] == Restored(words, old(forks[..]))
  {
    ghost var t: Forks := forks[..];
    assert words[..0] == [];
    for i := 0 to |words|
      invariant forks[..] == Restored(words[..i], t)
    {
      assert words[..i + 1][..i] == words[..i];
      var key, fork := KeyOf(words[i]), ForkOf(words[i]);
      if key > TABLE_SIZE {
        continue;
      } else {
        forks[key] := fork;
      }
    }
    assert words[..|words|] == words;
  }

  lemma RestoreOneMore(words: seq<Word>, key: Short, fork: Short, base: Forks)
    requires key < TABLE_SIZE
    ensures Restored(words + [Pack(key, fork)], base) == Restored(words, base)[key := fork]
  {
    PackRoundTrip(key, fork);
    assert (words + [Pack(key, fork)])[..|words|] == words;
  }

  /** Restoring a saved table overlays exactly its 16 lowest forked keys. */
  lemma {:induction false} RestoreOverlays(t: Forks, base: Forks, n: nat, k: nat)
    requires n <= TABLE_SIZE && k < TABLE_SIZE
    ensures Restored(Packed(t, n), base)[k] ==
            if k < n && t[k] != 0 && Count(t, k) < MAX_FORKS then t[k] else base[k]
    decreases n
  {
    if n > 0 {
      RestoreOverlays(t, base, n - 1, k);
      RestoreOneMore(Packed(t, n - 1), n - 1, t[n-1], base);
    }
  }

  lemma {:induction false} CountMonotone(t: Forks, k: nat, n: nat)
    requires k <= TABLE_SIZE && n <= TABLE_SIZE
    ensures k <= n ==> Count(t, k) <= Count(t, n)
    decreases n
  {
    if k < n {
      CountMonotone(t, k, n - 1);
    }
  }

  function NoForks(): Forks { seq(TABLE_SIZE, _ => 0) }

  /** Saving and restoring into an empty table is the identity if and only if at most 16 keys fork. */
  lemma SaveRestoreRoundTrip(t: Forks)
    ensures Restored(Packed(t, 512), NoForks()) == t <==> Count(t, 512) <= 16
  {
    var r := Restored(Packed(t, TABLE_SIZE), NoForks());
    forall k | 0 <= k < TABLE_SIZE
      ensures r[k] == if t[k] != 0 && Count(t, k) < MAX_FORKS then t[k] else 0
      ensures t[k] != 0 ==> Count(t, k) < Count(t, TABLE_SIZE)
    {
      RestoreOverlays(t, NoForks(), TABLE_SIZE, k);
      CountMonotone(t, k + 1, TABLE_SIZE);
    }
    if Count(t, TABLE_SIZE) > MAX_FORKS {
      var k := SeventeenthFork(t, TABLE_SIZE);
      assert r[k] != t[k];
    }
  }

  lemma {:induction false} SeventeenthFork(t: Forks, n: nat) returns (k: nat)
    requires n <= TABLE_SIZE && Count(t, n) > MAX_FORKS
    ensures k < n && t[k] != 0 && Count(t, k) == MAX_FORKS
    decreases n
  {
    if Count(t, n - 1) > MAX_FORKS {
      k := SeventeenthFork(t, n - 1);
    } else {
      k := n - 1;
    }
  }
}
