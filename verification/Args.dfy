/**
  In-place edits of argument lists (`web/protocol/args.go`): an array of key/value buffers of
  which the first `n` entries are in use.
 */
module Args {
  import opened Options

  newtype byte = b: int | 0 <= b < 256
  type Bytes = seq<byte>

  datatype KV = KV(key: Bytes, value: Bytes, noValue: bool)

  // ---------- specification ----------

  // All entries with another key, in order.
  function Deleted(h: seq<KV>, key: Bytes): seq<KV> {
    if h == [] then []
    else if h[0].key == key then Deleted(h[1..], key)
    else [h[0]] + Deleted(h[1..], key)
  }

  // The value of the first entry with the key.
  function Peeked(h: seq<KV>, key: Bytes): Option<Bytes> {
    if h == [] then None
    else if h[0].key == key then Some(h[0].value)
    else Peeked(h[1..], key)
  }

  function Entry(key: Bytes, value: Bytes, noValue: bool): KV {
    KV(key, if noValue then [] else value, noValue)
  }

  // The first entry with the key gets the value; without one an entry is appended.
  function Updated(h: seq<KV>, key: Bytes, value: Bytes, noValue: bool): seq<KV> {
    if h == [] then [Entry(key, value, noValue)]
    else if h[0].key == key then [Entry(key, value, noValue)] + h[1..]
    else [h[0]] + Updated(h[1..], key, value, noValue)
  }

  ghost predicate NoKey(h: seq<KV>, key: Bytes) {
    forall i :: 0 <= i < |h| ==> h[i].key != key
  }

  // ---------- map-like laws ----------

  lemma {:induction false} DeletedAppend(a: seq<KV>, b: seq<KV>, key: Bytes)
    ensures Deleted(a + b, key) == Deleted(a, key) + Deleted(b, key)
  {
    if a == [] {
      assert a + b == b;
    } else {
      assert (a + b)[1..] == a[1..] + b;
      DeletedAppend(a[1..], b, key);
    }
  }

  lemma {:induction false} DeletedNoKey(h: seq<KV>, key: Bytes)
    ensures NoKey(h, key) ==> Deleted(h, key) == h
    ensures NoKey(Deleted(h, key), key)
  {
    if h != [] {
      DeletedNoKey(h[1..], key);
      assert NoKey(h, key) ==> NoKey(h[1..], key);
    }
  }

  /** After a delete the key is gone; every other key reads as before. */
  lemma {:induction false} PeekAfterDelete(h: seq<KV>, key: Bytes, other: Bytes)
    ensures Peeked(Deleted(h, key), key) == None
    ensures other != key ==> Peeked(Deleted(h, key), other) == Peeked(h, other)
  {
    if h != [] {
      PeekAfterDelete(h[1..], key, other);
      if h[0].key != key {
        assert ([h[0]] + Deleted(h[1..], key))[1..] == Deleted(h[1..], key);
      }
    }
  }

  /** After a set the key reads as set; every other key reads as before. */
  lemma {:induction false} PeekAfterSet(h: seq<KV>, key: Bytes, value: Bytes, noValue: bool, other: Bytes)
    ensures Peeked(Updated(h, key, value, noValue), key) == Some(if noValue then [] else value)
    ensures other != key ==> Peeked(Updated(h, key, value, noValue), other) == Peeked(h, other)
  {
    var e := Entry(key, value, noValue);
    if h == [] {
      assert [e][1..] == [];
    } else if h[0].key == key {
      assert ([e] + h[1..])[1..] == h[1..];
    } else {
      PeekAfterSet(h[1..], key, value, noValue, other);
      assert ([h[0]] + Updated(h[1..], key, value, noValue))[1..] == Updated(h[1..], key, value, noValue);
    }
  }

  /** A set is undone by a delete, and overwritten by a later set of the key. */
  lemma {:induction false} SetThenDeleteOrSet(h: seq<KV>, key: Bytes, v: Bytes, noV: bool, w: Bytes, noW: bool)
    ensures Deleted(Updated(h, key, v, noV), key) == Deleted(h, key)
    ensures Updated(Updated(h, key, v, noV), key, w, noW) == Updated(h, key, w, noW)
  {
    var e := Entry(key, v, noV);
    if h == [] {
      assert [e][1..] == [];
      assert [Entry(key, w, noW)] + [] == [Entry(key, w, noW)];
    } else if h[0].key == key {
      assert ([e] + h[1..])[1..] == h[1..];
    } else {
      SetThenDeleteOrSet(h[1..], key, v, noV, w, noW);
      assert ([h[0]] + Updated(h[1..], key, v, noV))[1..] == Updated(h[1..], key, v, noV);
    }
  }

  // ---------- delAllArgs ----------

  // Entry `i` moves to the end of the first `n` entries, the ones between move down.
  ghost function Rotated(a: seq<KV>, i: nat, n: nat): seq<KV>
    requires i < n <= |a|
  {
    a[..i] + a[i + 1..n] + [a[i]] + a[n..]
  }

  lemma RotatedIsPermutation(a: seq<KV>, i: nat, n: nat)
    requires i < n <= |a|
    ensures multiset(Rotated(a, i, n)) == multiset(a)
  {
    assert a == a[..i] + [a[i]] + a[i + 1..n] + a[n..];
    PartsCommute(a[..i], [a[i]], a[i + 1..n], a[n..]);
  }

  lemma PartsCommute(p: seq<KV>, e: seq<KV>, m: seq<KV>, t: seq<KV>)
    ensures multiset(p + m + e + t) == multiset(p + e + m + t)
  {
  }

  lemma RotatedKeeps(a: seq<KV>, i: nat, n: nat, len: nat)
    requires i < n <= len <= |a|
    ensures |Rotated(a, i, n)| == |a|
    ensures Rotated(a, i, n)[..i] == a[..i] && Rotated(a, i, n)[len..] == a[len..]
  {
  }

  lemma RotatedAt(a: seq<KV>, i: nat, n: nat, j: nat)
    requires i < n <= |a| && j < |a|
    ensures j < |Rotated(a, i, n)|
    ensures Rotated(a, i, n)[j] == if i <= j < n - 1 then a[j + 1] else if j == n - 1 then a[i] else a[j]
  {
  }

  // Rotating an entry with the key away does not change what is left after deletion.
  lemma RotatedDeletes(a: seq<KV>, i: nat, n: nat, key: Bytes)
    requires i < n <= |a| && a[i].key == key
    ensures Deleted(Rotated(a, i, n)[..n - 1], key) == Deleted(a[..n], key)
  {
    assert Rotated(a, i, n)[..n - 1] == a[..i] + a[i + 1..n];
    assert a[..n] == a[..i] + ([a[i]] + a[i + 1..n]);
    DeletedAppend(a[..i], a[i + 1..n], key);
    DeletedAppend(a[..i], [a[i]] + a[i + 1..n], key);
    assert ([a[i]] + a[i + 1..n])[1..] == a[i + 1..n];
  }

  // copy(args[i:], args[i+1:]) followed by args[n-1] = tmp.
  method RotateEntry(a: array<KV>, i: nat, n: nat)
    requires i < n <= a.Length
    modifies a
    ensures a[..] == Rotated(old(a[..]), i, n)
  {
    hide Rotated;
    var tmp := a[i];
    ghost var before := a[..];
    for k := i to n - 1
      invariant forall j {:trigger a[j]} :: 0 <= j < a.Length ==> a[j] == if i <= j < k then before[j + 1] else before[j]
    {
      a[k] := a[k + 1];
    }
    a[n - 1] := tmp;
    RotatedKeeps(before, i, n, n);
    forall j | 0 <= j < a.Length ensures a[j] == Rotated(before, i, n)[j] {
      RotatedAt(before, i, n, j);
    }
  }

  /**
    The kept entries are exactly those with another key, in order, and the whole backing
    array is a permutation of what it was, so that no buffer is lost or shared.
   */
  method DelAllArgs(a: array<KV>, len: nat, key: Bytes) returns (n: nat)
    requires len <= a.Length
    modifies a
    ensures n <= len && a[..n] == Deleted(old(a[..len]), key)
    ensures multiset(a[..]) == old(multiset(a[..])) && a[len..] == old(a[len..])
  {
    hide Deleted, Rotated;
    n := len;
    var i := 0;
    while i < n
      invariant 0 <= i <= n <= len
      invariant NoKey(a[..i], key) && Deleted(a[..n], key) == Deleted(old(a[..len]), key)
      invariant multiset(a[..]) == old(multiset(a[..])) && a[len..] == old(a[len..])
      decreases n - i
    {
      if a[i].key == key {
        ghost var before := a[..];
        assert before[..n] == a[..n] && before[..i] == a[..i] && before[len..] == a[len..];
        RotatedIsPermutation(before, i, n);
        RotatedDeletes(before, i, n, key);
        RotatedKeeps(before, i, n, len);
        RotateEntry(a, i, n);
        n := n - 1;
        assert a[..n] == a[..][..n] && a[..i] == a[..][..i] && a[len..] == a[..][len..];
      } else {
        i := i + 1;
      }
    }
    DeletedNoKey(a[..n], key);
  }

  // ---------- setArgBytes and peekArgBytes ----------

  lemma {:induction false} UpdatedAt(h: seq<KV>, i: nat, key: Bytes, value: Bytes, noValue: bool)
    requires i <= |h| && NoKey(h[..i], key) && (i < |h| ==> h[i].key == key)
    ensures Updated(h, key, value, noValue) ==
            h[..i] + [Entry(key, value, noValue)] + (if i < |h| then h[i + 1..] else [])
    ensures Peeked(h, key) == if i < |h| then Some(h[i].value) else None
  {
    if i > 0 {
      assert h[1..][..i - 1] == h[..i][1..];
      assert h[0] == h[..i][0];
      UpdatedAt(h[1..], i - 1, key, value, noValue);
      assert h[..i] == [h[0]] + h[1..][..i - 1];
      assert i < |h| ==> h[1..][i..] == h[i + 1..];
    }
  }

  method SetArgBytes(a: array<KV>, n: nat, key: Bytes, value: Bytes, noValue: bool) returns (a': array<KV>, n': nat)
    requires n <= a.Length
    modifies a
    ensures n' <= a'.Length && a'[..n'] == Updated(old(a[..n]), key, value, noValue)
    ensures a' == a || fresh(a')
  {
    var i := 0;
    while i < n
      invariant 0 <= i <= n && a[..n] == old(a[..n]) && NoKey(a[..i], key)
    {
      if a[i].key == key {
        UpdatedAt(a[..n], i, key, value, noValue);
        assert a[..n][..i] == a[..i];
        a[i] := Entry(key, value, noValue);
        assert a[..n] == Updated(old(a[..n]), key, value, noValue);
        return a, n;
      }
      i := i + 1;
    }
    UpdatedAt(a[..n], n, key, value, noValue);
    assert a[..n][..n] == a[..n];
    a', n' := AllocArg(a, n);
    a'[n] := Entry(key, value, noValue);
    assert a'[..n + 1] == a'[..n] + [a'[n]];
  }

  /**
    allocArg: one more entry, whose slot keeps what it held (its buffers are used again), or
    the same entries in a larger array with an empty one at the end.
   */
  method AllocArg(a: array<KV>, n: nat) returns (a': array<KV>, n': nat)
    requires n <= a.Length
    ensures n' == n + 1 <= a'.Length && a'[..n] == a[..n]
    ensures if n < a.Length then a' == a else fresh(a') && a'[n] == KV([], [], false)
  {
    if n < a.Length {
      return a, n + 1;
    }
    a' := new KV[2 * n + 1](_ => KV([], [], false));
    for k := 0 to n
      invariant a'[..k] == a[..k] && a'[n] == KV([], [], false)
      modifies a'
    {
      a'[k] := a[k];
    }
    n' := n + 1;
  }

  method PeekArgBytes(a: array<KV>, n: nat, key: Bytes) returns (value: Option<Bytes>)
    requires n <= a.Length
    ensures value == Peeked(a[..n], key)
  {
    for i := 0 to n
      invariant NoKey(a[..i], key)
    {
      if a[i].key == key {
        UpdatedAt(a[..n], i, key, [], false);
        assert a[..n][..i] == a[..i];
        return Some(a[i].value);
      }
    }
    UpdatedAt(a[..n], n, key, [], false);
    assert a[..n][..n] == a[..n];
    return None;
  }
}
