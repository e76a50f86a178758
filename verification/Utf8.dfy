/** UTF-8 as RFC 3629 sections 3 and 4 define it, over plain bytes. */
module Utf8 {
  import opened Sequences

  type byte = b: int | 0 <= b < 256
  type Bytes = seq<byte>

  /** The top two bits are 10. */
  predicate IsTail(b: byte) {
    0x80 <= b <= 0xBF
  }

  /** The first two bytes of UTF8-3. */
  predicate Starts3(a: byte, b: byte) {
    || (a == 0xE0 && 0xA0 <= b <= 0xBF)
    || (0xE1 <= a <= 0xEC && IsTail(b))
    || (a == 0xED && 0x80 <= b <= 0x9F)
    || (0xEE <= a <= 0xEF && IsTail(b))
  }

  /** The first two bytes of UTF8-4. */
  predicate Starts4(a: byte, b: byte) {
    || (a == 0xF0 && 0x90 <= b <= 0xBF)
    || (0xF1 <= a <= 0xF3 && IsTail(b))
    || (a == 0xF4 && 0x80 <= b <= 0x8F)
  }

  /** The length of the well-formed character at the front, 0 when there is none. */
  function CharLen(s: Bytes): (n: nat)
    ensures n <= |s| && n <= 4
  {
    if |s| >= 1 && s[0] <= 0x7F then 1
    else if |s| >= 2 && 0xC2 <= s[0] <= 0xDF && IsTail(s[1]) then 2
    else if |s| >= 3 && Starts3(s[0], s[1]) && IsTail(s[2]) then 3
    else if |s| >= 4 && Starts4(s[0], s[1]) && IsTail(s[2]) && IsTail(s[3]) then 4
    else 0
  }

  /** One well-formed character and nothing else. */
  predicate IsChar(s: Bytes) {
    s != [] && CharLen(s) == |s|
  }

  /** The length of the longest well-formed prefix. */
  function ValidUpTo(s: Bytes): (n: nat)
    ensures n <= |s|
  {
    var n := CharLen(s);
    if n == 0 then 0 else n + ValidUpTo(s[n..])
  }

  predicate Valid(s: Bytes) {
    s == [] || (CharLen(s) > 0 && Valid(s[CharLen(s)..]))
  }

  /** A character cut short. */
  predicate IsCut(s: Bytes) {
    match |s|
    case 1 => 0xC2 <= s[0] <= 0xF4
    case 2 => Starts3(s[0], s[1]) || Starts4(s[0], s[1])
    case 3 => Starts4(s[0], s[1]) && IsTail(s[2])
    case _ => false
  }

  /** How many bytes one replacement character stands for: the longest cut character, or one byte. */
  function BadLen(s: Bytes): (n: nat)
    requires s != []
    ensures 1 <= n <= |s|
  {
    if |s| >= 3 && IsCut(s[..3]) then 3
    else if |s| >= 2 && IsCut(s[..2]) then 2
    else 1
  }

  /** U+FFFD. */
  const REPLACEMENT: Bytes := [0xEF, 0xBF, 0xBD]

  /** Decoding that replaces what is not well formed. */
  function Lossy(s: Bytes): Bytes {
    if s == [] then []
    else if CharLen(s) > 0 then s[..CharLen(s)] + Lossy(s[CharLen(s)..])
    else REPLACEMENT + Lossy(s[BadLen(s)..])
  }

  predicate IsBoundary(s: Bytes, i: nat)
    requires i <= |s|
  {
    i == 0 || i == |s| || !IsTail(s[i])
  }

  // ---- characters ----

  /** A character at the front stays there whatever follows. */
  lemma CharLenOfPrefix(a: Bytes, b: Bytes)
    requires CharLen(a) > 0
    ensures CharLen(a + b) == CharLen(a)
  {
  }

  lemma FrontIsChar(s: Bytes)
    requires CharLen(s) > 0
    ensures IsChar(s[..CharLen(s)])
    ensures s == s[..CharLen(s)] + s[CharLen(s)..]
  {
  }

  lemma CharTails(s: Bytes, i: nat)
    requires i < CharLen(s)
    ensures IsTail(s[i]) <==> i > 0
  {
  }

  /** Putting a character in front. */
  lemma Cons(c: Bytes, rest: Bytes)
    requires IsChar(c)
    ensures CharLen(c + rest) == |c| && (c + rest)[|c|..] == rest
    ensures Valid(c + rest) <==> Valid(rest)
    ensures ValidUpTo(c + rest) == |c| + ValidUpTo(rest)
  {
    CharLenOfPrefix(c, rest);
    assert (c + rest)[|c|..] == rest;
  }

  /** Taking the character in front. */
  lemma Uncons(s: Bytes) returns (c: Bytes, rest: Bytes)
    requires CharLen(s) > 0
    ensures IsChar(c) && s == c + rest && c == s[..CharLen(s)] && rest == s[CharLen(s)..]
    ensures Valid(s) <==> Valid(rest)
    ensures ValidUpTo(s) == |c| + ValidUpTo(rest)
  {
    c, rest := s[..CharLen(s)], s[CharLen(s)..];
    Cons(c, rest);
  }

  // ---- well-formed sequences ----

  lemma {:induction false} ValidConcat(a: Bytes, b: Bytes)
    requires Valid(a)
    ensures Valid(a + b) <==> Valid(b)
    ensures ValidUpTo(a + b) == |a| + ValidUpTo(b)
    decreases |a|
  {
    if a == [] {
      assert a + b == b;
    } else {
      var c, rest := Uncons(a);
      Associate(c, rest, b);
      ValidConcat(rest, b);
      Cons(c, rest + b);
    }
  }

  /** The first character does not reach into what follows a boundary. */
  lemma FirstCharFits(a: Bytes, b: Bytes)
    requires a != [] && CharLen(a + b) > 0 && (b == [] || !IsTail(b[0]))
    ensures CharLen(a + b) <= |a|
  {
    if CharLen(a + b) > |a| {
      CharTails(a + b, |a|);
    }
  }

  lemma {:induction false} ValidParts(a: Bytes, b: Bytes)
    requires Valid(a + b) && (b == [] || !IsTail(b[0]))
    ensures Valid(a) && Valid(b)
    decreases |a|, 1
  {
    if a == [] {
      assert a + b == b;
    } else {
      FirstCharFits(a, b);
      var c, more := a[..CharLen(a + b)], a[CharLen(a + b)..];
      FrontIsChar(a + b);
      assert (a + b)[..CharLen(a + b)] == c;
      assert a == c + more;
      PartsAfterChar(c, more, b);
    }
  }

  lemma {:induction false} PartsAfterChar(c: Bytes, a: Bytes, b: Bytes)
    requires IsChar(c) && Valid(c + a + b) && (b == [] || !IsTail(b[0]))
    ensures Valid(c + a) && Valid(b)
    decreases |c + a|, 0
  {
    Associate(c, a, b);
    Cons(c, a + b);
    ValidParts(a, b);
    Cons(c, a);
  }

  /** Cutting at a character boundary leaves two well-formed halves. */
  lemma ValidSplit(s: Bytes, i: nat)
    requires Valid(s) && i <= |s| && IsBoundary(s, i)
    ensures Valid(s[..i]) && Valid(s[i..])
  {
    assert s[..i] + s[i..] == s;
    if i == 0 {
      assert s[..0] == [] && s[0..] == s;
    } else {
      ValidParts(s[..i], s[i..]);
    }
  }

  /** A boundary is exactly a place where a well-formed sequence can be cut. */
  lemma ValidSuffixIffBoundary(s: Bytes, i: nat)
    requires Valid(s) && i <= |s|
    ensures Valid(s[i..]) <==> IsBoundary(s, i)
  {
    if IsBoundary(s, i) {
      ValidSplit(s, i);
    } else if Valid(s[i..]) {
      CharTails(s[i..], 0);
    }
  }

  /** The longest well-formed prefix is well formed, and no character follows it. */
  lemma ValidUpToIsValid(s: Bytes)
    ensures Valid(s[..ValidUpTo(s)])
    ensures Valid(s) <==> ValidUpTo(s) == |s|
    ensures CharLen(s[ValidUpTo(s)..]) == 0
  {
    var text, rest := Longest(s);
    assert s[..|text|] == text && s[|text|..] == rest;
    ValidConcat(text, rest);
  }

  /** Splits off the longest well-formed prefix. */
  lemma {:induction false} Longest(s: Bytes) returns (text: Bytes, rest: Bytes)
    ensures s == text + rest && Valid(text) && CharLen(rest) == 0 && |text| == ValidUpTo(s)
    decreases |s|
  {
    if CharLen(s) == 0 {
      text, rest := [], s;
    } else {
      var c, more := Uncons(s);
      var t, r := Longest(more);
      Associate(c, t, r);
      Cons(c, t);
      text, rest := c + t, r;
    }
  }

  /** Cut characters are exactly the proper prefixes of characters. */
  lemma CutIffProperPrefix(s: Bytes)
    requires s != []
    ensures IsCut(s) <==> exists rest: Bytes :: rest != [] && IsChar(s + rest)
  {
    if IsCut(s) {
      var a: Bytes := [0x80];
      var aa: Bytes := [0x80, 0x80];
      if |s| == 1 {
        if s[0] <= 0xDF { assert IsChar(s + a); }
        else if s[0] == 0xE0 { assert IsChar(s + [0xA0, 0x80]); }
        else if s[0] <= 0xEF { assert IsChar(s + aa); }
        else if s[0] == 0xF0 { assert IsChar(s + [0x90, 0x80, 0x80]); }
        else { assert IsChar(s + [0x80, 0x80, 0x80]); }
      } else if |s| == 2 {
        if Starts3(s[0], s[1]) { assert IsChar(s + a); } else { assert IsChar(s + aa); }
      } else {
        assert IsChar(s + a);
      }
    }
    if rest: Bytes :| rest != [] && IsChar(s + rest) {
      var c := s + rest;
      assert c[0] == s[0];
      if |s| >= 2 { assert c[1] == s[1]; }
      if |s| >= 3 { assert c[2] == s[2]; }
    }
  }

  lemma CutHasNoChar(s: Bytes)
    requires IsCut(s)
    ensures CharLen(s) == 0 && ValidUpTo(s) == 0 && !Valid(s)
    ensures forall i :: 0 < i < |s| ==> IsTail(s[i])
  {
  }

  // ---- lossy decoding ----

  /** Lossy decoding yields well-formed text and leaves well-formed text alone. */
  lemma {:induction false} LossyIsValid(s: Bytes)
    ensures Valid(Lossy(s))
    ensures Valid(s) ==> Lossy(s) == s
    decreases |s|
  {
    if s != [] {
      var n := CharLen(s);
      if n > 0 {
        FrontIsChar(s);
        LossyIsValid(s[n..]);
        Cons(s[..n], Lossy(s[n..]));
      } else {
        LossyIsValid(s[BadLen(s)..]);
        Cons(REPLACEMENT, Lossy(s[BadLen(s)..]));
      }
    }
  }

  /** Text before ill-formed bytes stays as it is. */
  lemma {:induction false} LossyConcat(a: Bytes, b: Bytes)
    requires Valid(a)
    ensures Lossy(a + b) == a + Lossy(b)
    decreases |a|
  {
    if a == [] {
      assert a + b == b;
    } else {
      var c, rest := Uncons(a);
      LossyConcat(rest, b);
      Associate(c, rest, b);
      Cons(c, rest + b);
      assert (c + (rest + b))[..|c|] == c;
      Associate(c, rest, Lossy(b));
    }
  }

  /** `bad` is what one replacement stands for: the longest cut character in front, or else one byte. */
  ghost predicate IsMaximalSubpart(bad: Bytes, rest: Bytes) {
    && bad != [] && CharLen(bad + rest) == 0
    && (IsCut(bad) || |bad| == 1)
    && forall k :: |bad| < k <= |bad + rest| ==> !IsCut((bad + rest)[..k])
  }

  lemma MaximalSubpartIsBad(bad: Bytes, rest: Bytes)
    requires IsMaximalSubpart(bad, rest)
    ensures BadLen(bad + rest) == |bad|
  {
    var s := bad + rest;
    assert s[..|bad|] == bad;
    assert forall k :: 1 <= k <= 3 && k <= |s| && k > |bad| ==> !IsCut(s[..k]);
    if |s| >= 3 { assert s[..3][..2] == s[..2]; }
  }

  /** Well-formed text stays, and each maximal ill-formed part becomes one replacement character. */
  lemma LossyReplacesMaximalSubparts(text: Bytes, bad: Bytes, rest: Bytes)
    requires Valid(text) && IsMaximalSubpart(bad, rest)
    ensures Lossy(text + bad + rest) == text + REPLACEMENT + Lossy(rest)
  {
    MaximalSubpartIsBad(bad, rest);
    assert (bad + rest)[|bad|..] == rest;
    assert Lossy(bad + rest) == REPLACEMENT + Lossy(rest);
    Associate(text, bad, rest);
    LossyConcat(text, bad + rest);
    Associate(text, REPLACEMENT, Lossy(rest));
  }

  /** Wherever no character begins there is exactly such a part. */
  lemma MaximalSubpartExists(s: Bytes) returns (bad: Bytes, rest: Bytes)
    requires s != [] && CharLen(s) == 0
    ensures s == bad + rest && IsMaximalSubpart(bad, rest)
  {
    bad, rest := s[..BadLen(s)], s[BadLen(s)..];
    assert s == bad + rest;
    forall k | |bad| < k <= |s| ensures !IsCut(s[..k]) {
    }
  }
}
