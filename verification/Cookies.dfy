/**
  Request cookies (`web/protocol/cookie.go`): printing a list of cookies into one header
  value and parsing it back.
 */
module Cookies {
  import opened Args

  const EQ: byte := 61
  const SEMI: byte := 59
  const SPACE: byte := 32
  const QUOTE: byte := 34

  datatype Cookie = Cookie(key: Bytes, value: Bytes)

  // ---------- printing ----------

  function Printed(c: Cookie): Bytes {
    (if c.key != [] then c.key + [EQ] else []) + c.value
  }

  // What follows the first cookie.
  function PrintedRest(cs: seq<Cookie>): Bytes {
    if cs == [] then [] else [SEMI] + ([SPACE] + Printed(cs[0])) + PrintedRest(cs[1..])
  }

  function PrintedAll(cs: seq<Cookie>): Bytes {
    if cs == [] then [] else Printed(cs[0]) + PrintedRest(cs[1..])
  }

  // ---------- parsing ----------

  function TrimLeft(s: Bytes): Bytes {
    if s != [] && s[0] == SPACE then TrimLeft(s[1..]) else s
  }

  function TrimRight(s: Bytes): Bytes {
    if s != [] && s[|s| - 1] == SPACE then TrimRight(s[..|s| - 1]) else s
  }

  predicate Quoted(s: Bytes) {
    |s| > 1 && s[0] == QUOTE && s[|s| - 1] == QUOTE
  }

  function Decoded(s: Bytes, skipQuotes: bool): Bytes {
    var t := TrimRight(TrimLeft(s));
    if skipQuotes && Quoted(t) then t[1..|t| - 1] else t
  }

  // The position of the first `b`, or the length.
  function Find(s: Bytes, b: byte): (i: nat)
    ensures i <= |s| && (i < |s| ==> s[i] == b)
    ensures forall j :: 0 <= j < i ==> s[j] != b
  {
    if s == [] || s[0] == b then 0 else 1 + Find(s[1..], b)
  }

  // The cookie in a stretch of the header without semicolons.
  function PieceCookie(p: Bytes): Cookie {
    var e := Find(p, EQ);
    if e < |p| then Cookie(Decoded(p[..e], false), Decoded(p[e + 1..], true))
    else Cookie([], Decoded(p, true))
  }

  predicate Blank(c: Cookie) { c.key == [] && c.value == [] }

  function Kept(c: Cookie): seq<Cookie> { if Blank(c) then [] else [c] }

  function ParsedAll(b: Bytes): seq<Cookie>
    decreases |b|
  {
    if b == [] then []
    else
      var i := Find(b, SEMI);
      Kept(PieceCookie(b[..i])) + (if i < |b| then ParsedAll(b[i + 1..]) else [])
  }

  // ---------- trimming ----------

  lemma {:induction false} TrimLeftShortens(s: Bytes)
    ensures if s != [] && s[0] == SPACE then |TrimLeft(s)| < |s| else TrimLeft(s) == s
    ensures forall x :: x in TrimLeft(s) ==> x in s
  {
    if s != [] && s[0] == SPACE {
      TrimLeftShortens(s[1..]);
    }
  }

  lemma {:induction false} TrimRightShortens(s: Bytes)
    ensures if s != [] && s[|s| - 1] == SPACE then |TrimRight(s)| < |s| else TrimRight(s) == s
    ensures forall x :: x in TrimRight(s) ==> x in s
  {
    if s != [] && s[|s| - 1] == SPACE {
      TrimRightShortens(s[..|s| - 1]);
    }
  }

  predicate Trimmed(s: Bytes) {
    s == [] || (s[0] != SPACE && s[|s| - 1] != SPACE)
  }

  /** Decoding never lengthens a string, and leaves it alone exactly when there is nothing to strip. */
  lemma DecodedIs(s: Bytes, skipQuotes: bool)
    ensures |Decoded(s, skipQuotes)| <= |s|
    ensures Decoded(s, skipQuotes) == s <==> Trimmed(s) && !(skipQuotes && Quoted(s))
    ensures forall x :: x in Decoded(s, skipQuotes) ==> x in s
  {
    hide TrimLeft, TrimRight;
    TrimLeftShortens(s);
    TrimRightShortens(TrimLeft(s));
    var t := TrimRight(TrimLeft(s));
    if |t| < |s| {
      assert |Decoded(s, skipQuotes)| < |s|;
    } else {
      assert t == s;
    }
    assert Quoted(t) ==> forall x :: x in t[1..|t| - 1] ==> x in t;
  }

  predicate Spaces(s: Bytes) {
    forall i :: 0 <= i < |s| ==> s[i] == SPACE
  }

  lemma {:induction false} TrimLeftIs(s: Bytes) returns (a: Bytes)
    ensures s == a + TrimLeft(s) && Spaces(a) && (TrimLeft(s) == [] || TrimLeft(s)[0] != SPACE)
  {
    if s != [] && s[0] == SPACE {
      var b := TrimLeftIs(s[1..]);
      a := [SPACE] + b;
    } else {
      a := [];
    }
  }

  lemma {:induction false} TrimRightIs(s: Bytes) returns (b: Bytes)
    ensures s == TrimRight(s) + b && Spaces(b) && (TrimRight(s) == [] || TrimRight(s)[|TrimRight(s)| - 1] != SPACE)
  {
    if s != [] && s[|s| - 1] == SPACE {
      var c := TrimRightIs(s[..|s| - 1]);
      b := c + [SPACE];
    } else {
      b := [];
    }
  }

  /**
    What decoding does, exactly: all outer spaces go, and then one pair of enclosing quotes if
    asked for.
   */
  lemma DecodedExactly(s: Bytes, skipQuotes: bool) returns (a: Bytes, t: Bytes, b: Bytes)
    ensures s == a + t + b && Spaces(a) && Spaces(b) && Trimmed(t)
    ensures if skipQuotes && Quoted(t) then t == [QUOTE] + Decoded(s, skipQuotes) + [QUOTE] else Decoded(s, skipQuotes) == t
  {
    a := TrimLeftIs(s);
    b := TrimRightIs(TrimLeft(s));
    t := TrimRight(TrimLeft(s));
    hide TrimLeft, TrimRight;
    if t != [] {
      assert TrimLeft(s)[0] == t[0];
    }
  }

  lemma DecodedSkipsSpace(s: Bytes, skipQuotes: bool)
    ensures Decoded([SPACE] + s, skipQuotes) == Decoded(s, skipQuotes)
  {
    assert ([SPACE] + s)[1..] == s;
  }

  lemma {:induction false} FindIn(s: Bytes, t: Bytes, b: byte)
    requires b !in s
    ensures Find(s + [b] + t, b) == |s|
    ensures Find(s, b) == |s|
  {
    assert (s + [b] + t)[|s|] == b;
    assert forall j :: 0 <= j < |s| ==> (s + [b] + t)[j] == s[j] && s[j] in s;
  }

  lemma PieceSkipsSpace(p: Bytes)
    ensures PieceCookie([SPACE] + p) == PieceCookie(p)
  {
    var q := [SPACE] + p;
    var e := Find(p, EQ);
    assert q[1..] == p;
    assert Find(q, EQ) == e + 1;
    if e < |p| {
      assert q[..e + 1] == [SPACE] + p[..e] && q[e + 2..] == p[e + 1..];
      DecodedSkipsSpace(p[..e], false);
    } else {
      DecodedSkipsSpace(p, true);
    }
  }

  // ---------- one cookie ----------

  // What a cookie must look like to survive the trip.
  predicate Clean(c: Cookie) {
    && SEMI !in c.key && SEMI !in c.value && EQ !in c.key
    && Trimmed(c.key) && Trimmed(c.value) && !Quoted(c.value)
    && (c.key == [] ==> c.value != [] && EQ !in c.value)
  }

  lemma PrintedNoSemi(c: Cookie)
    ensures SEMI !in Printed(c) <==> SEMI !in c.key && SEMI !in c.value
  {
    if SEMI in c.key {
      var i :| 0 <= i < |c.key| && c.key[i] == SEMI;
      assert Printed(c)[i] == SEMI;
    }
    if SEMI in c.value {
      var i :| 0 <= i < |c.value| && c.value[i] == SEMI;
      assert Printed(c)[|Printed(c)| - |c.value| + i] == SEMI;
    }
  }

  lemma PieceWithoutKey(v: Bytes)
    ensures PieceCookie(v) == Cookie([], v) <==> EQ !in v && Trimmed(v) && !Quoted(v)
  {
    hide Decoded, Trimmed, Quoted;
    DecodedIs(v, true);
    var e := Find(v, EQ);
    if e < |v| {
      DecodedIs(v[e + 1..], true);
    } else {
      assert forall j :: 0 <= j < |v| ==> v[j] != EQ;
    }
  }

  lemma PieceWithKey(k: Bytes, v: Bytes)
    requires k != []
    ensures PieceCookie(k + [EQ] + v) == Cookie(k, v) <==>
            EQ !in k && Trimmed(k) && Trimmed(v) && !Quoted(v)
  {
    hide Decoded, Trimmed, Quoted;
    var p := k + [EQ] + v;
    assert p[|k|] == EQ;
    var e := Find(p, EQ);
    if EQ !in k {
      DecodedIs(k, false);
      DecodedIs(v, true);
      FindIn(k, v, EQ);
      assert p[..e] == k && p[e + 1..] == v;
    } else {
      var i :| 0 <= i < |k| && k[i] == EQ;
      assert p[i] == EQ;
      DecodedIs(p[..e], false);
    }
  }

  /** A printed cookie is read back as itself, and kept, exactly when it is clean. */
  lemma PieceRoundTrip(c: Cookie)
    requires SEMI !in c.key && SEMI !in c.value
    ensures PieceCookie(Printed(c)) == c && !Blank(c) <==> Clean(c)
  {
    hide PieceCookie, Quoted, Trimmed;
    PieceWithoutKey(c.value);
    TrimmedEmpty();
    if c.key == [] {
      assert Printed(c) == c.value;
    } else {
      PieceWithKey(c.key, c.value);
    }
  }

  lemma TrimmedEmpty()
    ensures Trimmed([])
  {
  }

  // ---------- lists ----------

  lemma PieceNoSemi(p: Bytes)
    requires SEMI !in p
    ensures SEMI !in PieceCookie(p).key && SEMI !in PieceCookie(p).value
  {
    var e := Find(p, EQ);
    DecodedIs(p, true);
    if e < |p| {
      DecodedIs(p[..e], false);
      DecodedIs(p[e + 1..], true);
    }
  }

  /** No parsed cookie contains a semicolon. */
  lemma {:induction false} ParsedNoSemi(b: Bytes, k: nat)
    requires k < |ParsedAll(b)|
    ensures SEMI !in ParsedAll(b)[k].key && SEMI !in ParsedAll(b)[k].value
    decreases |b|
  {
    hide PieceCookie;
    var i := Find(b, SEMI);
    var first := Kept(PieceCookie(b[..i]));
    PieceNoSemi(b[..i]);
    if k >= |first| {
      ParsedNoSemi(b[i + 1..], k - |first|);
    }
  }

  function KeptAll(cs: seq<Cookie>): seq<Cookie> {
    if cs == [] then [] else Kept(PieceCookie(Printed(cs[0]))) + KeptAll(cs[1..])
  }

  predicate NoSemis(cs: seq<Cookie>) {
    forall i :: 0 <= i < |cs| ==> SEMI !in cs[i].key && SEMI !in cs[i].value
  }

  lemma EmptyPiece()
    ensures PieceCookie([]) == Cookie([], [])
  {
  }

  // A printed list is parsed piece by piece.
  lemma {:induction false} ParsePieces(x: Bytes, cs: seq<Cookie>)
    requires SEMI !in x && NoSemis(cs)
    ensures ParsedAll(x + PrintedRest(cs)) == Kept(PieceCookie(x)) + KeptAll(cs)
    decreases |cs|
  {
    hide PieceCookie, Printed;
    if cs == [] {
      assert x + PrintedRest(cs) == x;
      FindIn(x, [], SEMI);
      if x == [] {
        EmptyPiece();
      } else {
        assert x[..|x|] == x;
      }
    } else {
      var y := [SPACE] + Printed(cs[0]);
      var rest := y + PrintedRest(cs[1..]);
      var b := x + PrintedRest(cs);
      assert b == x + [SEMI] + rest;
      FindIn(x, rest, SEMI);
      assert b[..|x|] == x && b[|x| + 1..] == rest;
      PrintedNoSemi(cs[0]);
      ParsePieces(y, cs[1..]);
      PieceSkipsSpace(Printed(cs[0]));
    }
  }

  predicate AllClean(cs: seq<Cookie>) {
    forall i :: 0 <= i < |cs| ==> Clean(cs[i])
  }

  lemma AllCleanCons(cs: seq<Cookie>)
    requires cs != []
    ensures AllClean(cs) <==> Clean(cs[0]) && AllClean(cs[1..])
  {
    hide Clean;
    assert cs == [cs[0]] + cs[1..];
  }

  lemma {:induction false} KeptAllIs(cs: seq<Cookie>)
    requires NoSemis(cs)
    ensures |KeptAll(cs)| <= |cs|
    ensures KeptAll(cs) == cs <==> AllClean(cs)
  {
    hide PieceCookie, Printed, Clean, Blank, AllClean;
    if cs == [] {
      NoneUnclean();
    } else {
      KeptAllIs(cs[1..]);
      PieceRoundTrip(cs[0]);
      AllCleanCons(cs);
      var c := PieceCookie(Printed(cs[0]));
      var rest := KeptAll(cs[1..]);
      assert cs == [cs[0]] + cs[1..];
      if !Blank(c) {
        assert KeptAll(cs) == [c] + rest;
        assert ([c] + rest)[1..] == rest;
      } else {
        assert KeptAll(cs) == rest;
      }
    }
  }

  lemma NoneUnclean()
    ensures AllClean([])
  {
  }

  /** Parsing the printed list gives the list back exactly when every cookie is clean. */
  lemma CookiesRoundTrip(cs: seq<Cookie>)
    ensures ParsedAll(PrintedAll(cs)) == cs <==> AllClean(cs)
  {
    if ParsedAll(PrintedAll(cs)) == cs {
      forall i | 0 <= i < |cs| ensures SEMI !in cs[i].key && SEMI !in cs[i].value {
        ParsedNoSemi(PrintedAll(cs), i);
      }
    }
    if NoSemis(cs) && cs != [] {
      PrintedNoSemi(cs[0]);
      ParsePieces(Printed(cs[0]), cs[1..]);
      KeptAllIs(cs);
    }
  }

  // ---------- the loops ----------

  lemma {:induction false} PrintedAllAppend(cs: seq<Cookie>, c: Cookie)
    ensures PrintedAll(cs + [c]) == PrintedAll(cs) + (if cs == [] then [] else [SEMI, SPACE]) + Printed(c)
  {
    hide Printed;
    if cs == [] {
      assert [c][1..] == [];
    } else {
      assert (cs + [c])[1..] == cs[1..] + [c];
      PrintedRestAppend(cs[1..], c);
    }
  }

  lemma {:induction false} PrintedRestAppend(cs: seq<Cookie>, c: Cookie)
    ensures PrintedRest(cs + [c]) == PrintedRest(cs) + [SEMI, SPACE] + Printed(c)
  {
    hide Printed;
    if cs == [] {
      assert [c][1..] == [];
    } else {
      assert (cs + [c])[1..] == cs[1..] + [c];
      PrintedRestAppend(cs[1..], c);
    }
  }

  method AppendRequestCookieBytes(dst: Bytes, cookies: seq<Cookie>) returns (r: Bytes)
    ensures r == dst + PrintedAll(cookies)
  {
    hide PrintedAll;
    r := dst;
    var n := |cookies|;
    assert cookies[..0] == [];
    PrintedNone();
    for i := 0 to n
      invariant r == dst + PrintedAll(cookies[..i]) + (if 0 < i < n then [SEMI, SPACE] else [])
    {
      var kv := cookies[i];
      ghost var before := r;
      if |kv.key| > 0 {
        r := r + kv.key;
        r := r + [EQ];
      }
      r := r + kv.value;
      assert r == before + Printed(kv);
      if i + 1 < n {
        r := r + [SEMI, SPACE];
      }
      PrintedAllAppend(cookies[..i], kv);
      assert cookies[..i + 1] == cookies[..i] + [kv];
    }
    assert cookies[..n] == cookies;
  }

  lemma PrintedNone()
    ensures PrintedAll([]) == []
  {
  }

  method DecodeCookieArg(src: Bytes, skipQuotes: bool) returns (r: Bytes)
    ensures r == Decoded(src, skipQuotes)
  {
    var s := src;
    while |s| > 0 && s[0] == SPACE
      invariant TrimLeft(s) == TrimLeft(src)
    {
      s := s[1..];
    }
    while |s| > 0 && s[|s| - 1] == SPACE
      invariant TrimRight(s) == TrimRight(TrimLeft(src))
    {
      s := s[..|s| - 1];
    }
    if skipQuotes {
      if |s| > 1 && s[0] == QUOTE && s[|s| - 1] == QUOTE {
        s := s[1..|s| - 1];
      }
    }
    r := s;
  }

  lemma FindAt(s: Bytes, i: nat, b: byte)
    requires i <= |s| && (forall j :: 0 <= j < i ==> s[j] != b) && (i < |s| ==> s[i] == b)
    ensures Find(s, b) == i
  {
  }

  // The rest of the header after the first piece.
  function AfterPiece(b: Bytes): Bytes {
    var i := Find(b, SEMI);
    if i < |b| then b[i + 1..] else []
  }

  class CookieScanner {
    var b: Bytes

    constructor (src: Bytes)
      ensures b == src
    {
      b := src;
    }

    /** Takes the next piece off the header; with nothing left the entry stays as it is. */
    method Next(kv: Cookie) returns (more: bool, kv': Cookie)
      modifies this
      ensures more == (old(b) != [])
      ensures more ==> kv' == PieceCookie(old(b)[..Find(old(b), SEMI)]) && b == AfterPiece(old(b))
      ensures !more ==> kv' == kv && b == []
    {
      hide Decoded, PieceCookie, Find;
      var s := b;
      if |s| == 0 {
        return false, kv;
      }
      var isKey := true;
      var k := 0;
      var key, value := kv.key, kv.value;
      var i := 0;
      while i < |s| && s[i] != SEMI
        invariant 0 <= i <= |s| && forall j :: 0 <= j < i ==> s[j] != SEMI
        invariant isKey ==> k == 0 && forall j :: 0 <= j < i ==> s[j] != EQ
        invariant !isKey ==> 0 < k <= i && s[k - 1] == EQ && key == Decoded(s[..k - 1], false)
        invariant !isKey ==> forall j :: 0 <= j < k - 1 ==> s[j] != EQ
      {
        if s[i] == EQ && isKey {
          isKey := false;
          key := DecodeCookieArg(s[..i], false);
          k := i + 1;
        }
        i := i + 1;
      }
      FindAt(s, i, SEMI);
      if isKey {
        key := [];
      }
      value := DecodeCookieArg(s[k..i], true);
      PieceSplits(s[..i], isKey, k);
      assert !isKey ==> s[..i][..k - 1] == s[..k - 1];
      assert s[..i][k..] == s[k..i];
      b := if i < |s| then s[i + 1..] else [];
      return true, Cookie(key, value);
    }
  }

  lemma PieceSplits(p: Bytes, isKey: bool, k: nat)
    requires isKey ==> k == 0 && forall j :: 0 <= j < |p| ==> p[j] != EQ
    requires !isKey ==> 0 < k <= |p| && p[k - 1] == EQ && forall j :: 0 <= j < k - 1 ==> p[j] != EQ
    ensures PieceCookie(p) == Cookie(if isKey then [] else Decoded(p[..k - 1], false), Decoded(p[k..], true))
  {
    hide Decoded;
    FindAt(p, if isKey then |p| else k - 1, EQ);
    assert p[0..] == p;
  }

  lemma ParsedStep(b: Bytes)
    requires b != []
    ensures ParsedAll(b) == Kept(PieceCookie(b[..Find(b, SEMI)])) + ParsedAll(AfterPiece(b))
    ensures |AfterPiece(b)| < |b|
  {
    hide PieceCookie;
  }

  // The cookies that argument entries stand for; nothing reads their noValue flags.
  function CookiesOf(h: seq<KV>): (cs: seq<Cookie>)
    ensures |cs| == |h|
    ensures forall i :: 0 <= i < |h| ==> cs[i] == Cookie(h[i].key, h[i].value)
  {
    seq(|h|, i requires 0 <= i < |h| => Cookie(h[i].key, h[i].value))
  }

  /**
    The entries of `a` stay, and the cookies that are not blank are put behind them.  The slot
    of a blank cookie is used again, and the last slot is given back.
   */
  method ParseRequestCookies(a: array<KV>, n: nat, src: Bytes) returns (a': array<KV>, n': nat)
    requires n <= a.Length
    modifies a
    ensures n <= n' <= a'.Length && (a' == a || fresh(a')) && a'[..n] == old(a[..n])
    ensures CookiesOf(a'[..n']) == CookiesOf(old(a[..n])) + ParsedAll(src)
  {
    hide ParsedAll, CookiesOf;
    ghost var before := CookiesOf(a[..n]);
    var s := new CookieScanner(src);
    a', n' := AllocArg(a, n);
    var more := true;
    while more
      invariant n < n' <= a'.Length && (a' == a || fresh(a')) && a'[..n] == old(a[..n]) && fresh(s)
      invariant CookiesOf(a'[..n' - 1]) + ParsedAll(s.b) == before + ParsedAll(src)
      invariant !more ==> s.b == []
      decreases |s.b|, more
    {
      ghost var kept := a'[..n' - 1];
      assert kept[..n] == a'[..n];
      a', n', more := ParseNext(s, a', n');
      assert a'[..n] == a'[..|kept|][..n];
    }
    n' := n' - 1;
    ParsedNone();
  }

  // One round: the scanner fills the last slot; a cookie that is not blank keeps it.
  method ParseNext(s: CookieScanner, a: array<KV>, n: nat) returns (a': array<KV>, n': nat, more: bool)
    requires 0 < n <= a.Length
    modifies s, a
    ensures n <= n' <= a'.Length && (a' == a || fresh(a')) && a'[..n - 1] == old(a[..n - 1])
    ensures CookiesOf(a'[..n' - 1]) + ParsedAll(s.b) == CookiesOf(old(a[..n - 1])) + ParsedAll(old(s.b))
    ensures if more then |s.b| < |old(s.b)| else s.b == []
  {
    hide PieceCookie, ParsedAll, AfterPiece, Kept, CookiesOf;
    if s.b != [] {
      ParsedStep(s.b);
    }
    a', n' := a, n;
    var slot := a[n - 1];
    var kv;
    more, kv := s.Next(Cookie(slot.key, slot.value));
    KeptIs(kv);
    a[n - 1] := KV(kv.key, kv.value, slot.noValue);
    ghost var kept := old(a[..n - 1]);
    assert a[..n - 1] == kept;
    if more && (|kv.key| > 0 || |kv.value| > 0) {
      ghost var all := a[..n];
      assert all == kept + [a[n - 1]];
      CookiesOfSnoc(kept, a[n - 1]);
      a', n' := AllocArg(a, n);
      assert a'[..n' - 1] == all && a'[..n - 1] == all[..n - 1];
    }
  }

  lemma KeptIs(c: Cookie)
    ensures Kept(c) == if |c.key| > 0 || |c.value| > 0 then [c] else []
  {
  }

  lemma CookiesOfSnoc(h: seq<KV>, kv: KV)
    ensures CookiesOf(h + [kv]) == CookiesOf(h) + [Cookie(kv.key, kv.value)]
  {
  }

  lemma ParsedNone()
    ensures ParsedAll([]) == []
  {
  }

  /** The two loops are inverse exactly on lists of clean cookies. */
  method PrintThenParse(cookies: seq<Cookie>) returns (r: seq<Cookie>)
    ensures r == cookies <==> AllClean(cookies)
  {
    hide ParsedAll, PrintedAll, AllClean;
    var header := AppendRequestCookieBytes([], cookies);
    var a := new KV[0];
    var a', n := ParseRequestCookies(a, 0, header);
    r := CookiesOf(a'[..n]);
    assert [] + PrintedAll(cookies) == PrintedAll(cookies);
    CookiesRoundTrip(cookies);
  }
}
