/** What a receiver makes of any file attributes, whoever sent them. */
module KermitAttrs {
  import opened Bytes
  import opened KermitChecks
  import opened KermitInit

  // ----- numbers -------------------------------------------------------------------------------------------

  predicate Blank(c: byte) { c in [9, 10, 11, 12, 13, 32, 160] }

  predicate Figure(c: byte) { c in [48, 49, 50, 51, 52, 53, 54, 55, 56, 57] }

  predicate Sign(s: seq<byte>) { s == [] || s == [43] || s == [45] }

  function Zeros(k: nat): (s: seq<byte>)
    ensures |s| == k
  {
    if k == 0 then [] else [48] + Zeros(k - 1)
  }

  /** Leading blanks are skipped. */
  lemma {:induction false} BlanksSkipped(blanks: seq<byte>, s: seq<byte>)
    requires forall i :: 0 <= i < |blanks| ==> Blank(blanks[i])
    ensures ParseInt(blanks + s) == ParseInt(s)
  {
    if blanks == [] {
      assert blanks + s == s;
    } else {
      assert Blank(blanks[0]);
      assert (blanks + s)[1..] == blanks[1..] + s;
      BlanksSkipped(blanks[1..], s);
    }
  }

  lemma {:induction false} PrefixEnds(figures: seq<byte>, rest: seq<byte>)
    requires forall i :: 0 <= i < |figures| ==> IsDigit(figures[i])
    requires rest == [] || !Figure(rest[0])
    ensures DigitPrefix(figures + rest) == |figures|
  {
    if figures == [] {
      assert figures + rest == rest;
    } else {
      assert (figures + rest)[1..] == figures[1..] + rest;
      PrefixEnds(figures[1..], rest);
    }
  }

  lemma {:induction false} ZerosDoNotCount(k: nat, s: seq<byte>)
    requires forall i :: 0 <= i < |s| ==> IsDigit(s[i])
    ensures var z := Zeros(k) + s;
            (forall i :: 0 <= i < |z| ==> IsDigit(z[i])) && DigitsValue(z) == DigitsValue(s)
    decreases k, |s|
  {
    var z := Zeros(k) + s;
    if s != [] {
      ZerosDoNotCount(k, s[..|s| - 1]);
      assert z[..|z| - 1] == Zeros(k) + s[..|s| - 1];
    } else if k > 0 {
      ZerosDoNotCount(k - 1, [48]);
      ZerosCommute(k - 1);
      assert Zeros(k - 1) + [48] == z;
      assert DigitsValue([48]) == 0;
    }
  }

  lemma {:induction false} ZerosCommute(k: nat)
    ensures Zeros(k) + [48] == [48] + Zeros(k)
  {
    if k > 0 { ZerosCommute(k - 1); }
  }

  lemma {:induction false} SignedRead(sign: seq<byte>, figures: seq<byte>, rest: seq<byte>)
    requires Sign(sign) && figures != [] && (rest == [] || !Figure(rest[0]))
    requires forall i :: 0 <= i < |figures| ==> IsDigit(figures[i])
    ensures ParseInt(sign + (figures + rest)) ==
            Some(if sign == [45] then 0 - DigitsValue(figures) else DigitsValue(figures))
  {
    hide DigitsValue, DigitPrefix, Figure;
    PrefixEnds(figures, rest);
    var u := figures + rest;
    var s := sign + u;
    assert IsDigit(figures[0]);
    assert u[0] == figures[0] && u[..|figures|] == figures;
    if sign == [] { assert s == u; } else { assert s[1..] == u && s[0] == sign[0]; }
  }

  /** A number as any program may write it: blanks, a sign, zeros, the decimal digits, and what does not belong to it. */
  lemma {:induction false} NumberRead(blanks: seq<byte>, sign: seq<byte>, k: nat, n: nat, rest: seq<byte>)
    requires (forall i :: 0 <= i < |blanks| ==> Blank(blanks[i])) && Sign(sign) && (rest == [] || !Figure(rest[0]))
    ensures ParseInt(blanks + (sign + (Zeros(k) + Digits(n) + rest))) == Some(if sign == [45] then 0 - n else n)
  {
    hide ParseInt, DigitsValue, Digits, Blank, Figure, Sign;
    var figures := Zeros(k) + Digits(n);
    BlanksSkipped(blanks, sign + (figures + rest));
    ZerosDoNotCount(k, Digits(n));
    DigitsReadBack(n);
    SignedRead(sign, figures, rest);
  }

  /** Anything else is not a number. */
  lemma {:induction false} NoNumber(blanks: seq<byte>, sign: seq<byte>, rest: seq<byte>)
    requires (forall i :: 0 <= i < |blanks| ==> Blank(blanks[i])) && Sign(sign) && (rest == [] || !Figure(rest[0]))
    requires sign == [] && rest != [] ==> !Blank(rest[0]) && rest[0] != 43 && rest[0] != 45
    ensures ParseInt(blanks + (sign + rest)) == None
  {
    hide ParseInt;
    BlanksSkipped(blanks, sign + rest);
    NotSigned(sign, rest);
  }

  lemma {:induction false} NotSigned(sign: seq<byte>, rest: seq<byte>)
    requires Sign(sign) && (rest == [] || !Figure(rest[0]))
    requires sign == [] && rest != [] ==> !Blank(rest[0]) && rest[0] != 43 && rest[0] != 45
    ensures ParseInt(sign + rest) == None
  {
    hide DigitsValue;
    var s := sign + rest;
    assert rest != [] ==> !IsDigit(rest[0]);
    assert sign == [] && rest != [] ==> !IsSpace(rest[0]);
    hide Blank, Figure, IsSpace, IsDigit;
    assert if sign == [] then s == rest else s[1..] == rest;
  }

  // ----- attributes ----------------------------------------------------------------------------------------

  datatype Attr = Attr(tag: byte, value: seq<byte>)

  /** Attributes one after the other; the last one may state more bytes than are there. */
  function Encoded(list: seq<Attr>, missing: nat): seq<byte>
  {
    if list == [] then []
    else [list[0].tag, ToChar(|list[0].value| + if |list| == 1 then missing else 0)] + list[0].value
         + Encoded(list[1..], missing)
  }

  ghost predicate Fit(list: seq<Attr>, missing: nat)
  {
    forall i :: 0 <= i < |list| ==> |list[i].value| + missing <= 94
  }

  lemma {:induction false} OneRead(a: Attr, missing: nat, d: seq<byte>, exact: Option<int>)
    requires |a.value| + missing <= 94 && (missing == 0 || d == [])
    ensures SizeFrom([a.tag, ToChar(|a.value| + missing)] + a.value + d, exact) ==
            SizeFrom(d, if a.tag == 49 then ParseInt(a.value) else exact)
  {
    hide ParseInt, ToChar, UnChar;
    UnCharToChar(|a.value| + missing);
    var s := [a.tag, ToChar(|a.value| + missing)] + a.value + d;
    var end := Min(2 + UnChar(s[1]), |s|);
    assert end == 2 + |a.value| && s[2..end] == a.value && s[end..] == d;
  }

  lemma {:induction false} ListRead(list: seq<Attr>, missing: nat, tail: seq<byte>, exact: Option<int>)
    requires Fit(list, missing) && |tail| <= 1 && (missing == 0 || tail == [])
    ensures SizeFrom(Encoded(list, missing) + tail, exact) == LastSize(list, exact)
    decreases |list|
  {
    hide ParseInt, ToChar, UnChar, SizeFrom;
    if list == [] {
      assert Encoded(list, missing) + tail == tail;
      Remainder(tail, exact);
    } else {
      var a, over := list[0], if |list| == 1 then missing else 0;
      var d := Encoded(list[1..], missing) + tail;
      assert Encoded(list, missing) + tail == [a.tag, ToChar(|a.value| + over)] + a.value + d;
      OneRead(a, over, d, exact);
      ListRead(list[1..], missing, tail, if a.tag == 49 then ParseInt(a.value) else exact);
    }
  }

  lemma {:induction false} Remainder(tail: seq<byte>, exact: Option<int>)
    requires |tail| <= 1
    ensures SizeFrom(tail, exact) == exact
  {
  }

  function LastSize(list: seq<Attr>, exact: Option<int>): Option<int>
  {
    if list == [] then exact else LastSize(list[1..], if list[0].tag == 49 then ParseInt(list[0].value) else exact)
  }

  lemma {:induction false} LastSizeIs(list: seq<Attr>, exact: Option<int>, i: nat)
    requires i <= |list| && forall k :: i <= k < |list| ==> list[k].tag != 49
    ensures LastSize(list, exact) == if i == 0 then exact
                                     else if list[i - 1].tag == 49 then ParseInt(list[i - 1].value)
                                     else LastSize(list[..i - 1], exact)
    decreases |list|
  {
    hide ParseInt;
    if list != [] {
      var next := if list[0].tag == 49 then ParseInt(list[0].value) else exact;
      if i == 0 {
        LastSizeIs(list[1..], next, 0);
      } else {
        LastSizeIs(list[1..], next, i - 1);
        if i > 1 { assert list[..i - 1][1..] == list[1..][..i - 2]; }
      }
    }
  }

  /**
   * Of any attributes, in any order and cut at any byte, the last length in bytes counts: the
   * number it starts with, or no size if it starts with none. Without one the size stays.
   */
  lemma {:induction false} SizeAnnounced(list: seq<Attr>, missing: nat, tail: seq<byte>, before: int, i: nat)
    requires Fit(list, missing) && |tail| <= 1 && (missing == 0 || tail == [])
    requires i <= |list| && forall k :: i <= k < |list| ==> list[k].tag != 49
    ensures i == 0 ==> ParseAttrs(Encoded(list, missing) + tail, before) == before
    ensures i > 0 && list[i - 1].tag == 49 ==>
              ParseAttrs(Encoded(list, missing) + tail, before) ==
              match ParseInt(list[i - 1].value) case None => -1 case Some(v) => v
  {
    hide Encoded, ParseInt, LastSize, SizeFrom, Fit;
    ListRead(list, missing, tail, Some(before));
    LastSizeIs(list, Some(before), i);
  }
}
