/** normalizeLength of buildingFactory.js: a length tag given as a number, a
    numeral or a numeral followed by " m". */
module Lengths {
  import opened Js
  import opened Features

  predicate AllWhiteSpace(w: string) {
    forall i :: 0 <= i < |w| ==> IsWhiteSpace(w[i])
  }

  /** The trimmed form of a string without white space at either end. */
  predicate Trimmed(s: string) {
    s != [] && !IsWhiteSpace(s[0]) && !IsWhiteSpace(s[|s| - 1])
  }

  /** A string whose trimmed form ends in " m" is parsed without those two
      characters; any other string is parsed as it is; a number is returned
      unchanged. */
  function NormalizeLength(v: TagValue, parse: string -> Num): (r: Num)
    ensures v.Number? ==> r == v.n
    ensures v.Text? && !EndsWith(Trim(v.s), " m") ==> r == parse(v.s)
    ensures v.Text? && EndsWith(Trim(v.s), " m") ==>
      r == parse(Trim(v.s)[..|Trim(v.s)| - 2])
  {
    match v
    case Number(n) => n
    case Text(s) =>
      var t := Trim(s);
      if EndsWith(t, " m") then parse(t[..|t| - 2]) else parse(s)
  }

  lemma {:induction false} TrimStartSkipsWhiteSpace(w: string, x: string)
    requires AllWhiteSpace(w)
    requires x != [] && !IsWhiteSpace(x[0])
    ensures TrimStart(w + x) == x
  {
    if w != [] {
      assert (w + x)[1..] == w[1..] + x;
      TrimStartSkipsWhiteSpace(w[1..], x);
    } else {
      assert w + x == x;
    }
  }

  lemma {:induction false} TrimEndSkipsWhiteSpace(x: string, w: string)
    requires AllWhiteSpace(w)
    requires x != [] && !IsWhiteSpace(x[|x| - 1])
    ensures TrimEnd(x + w) == x
  {
    if w != [] {
      assert (x + w)[..|x + w| - 1] == x + w[..|w| - 1];
      TrimEndSkipsWhiteSpace(x, w[..|w| - 1]);
    } else {
      assert x + w == x;
    }
  }

  lemma TrimSurrounded(w1: string, x: string, w2: string)
    requires AllWhiteSpace(w1) && AllWhiteSpace(w2) && Trimmed(x)
    ensures Trim(w1 + x + w2) == x
  {
    assert w1 + x + w2 == w1 + (x + w2);
    assert (x + w2)[0] == x[0];
    TrimStartSkipsWhiteSpace(w1, x + w2);
    TrimEndSkipsWhiteSpace(x, w2);
  }

  /** A bare numeral is parsed as it is. */
  lemma BareNumeralIsParsed(s: string, parse: string -> Num)
    requires Trimmed(s) && !EndsWith(s, " m")
    ensures NormalizeLength(Text(s), parse) == parse(s)
  {
    TrimSurrounded([], s, []);
    assert [] + s + [] == s;
  }

  /** Writing a numeral with the " m" unit, with any white space around it,
      gives the same length as writing the bare numeral. */
  lemma MeterSuffixIsIgnored(w1: string, s: string, w2: string, parse: string -> Num)
    requires AllWhiteSpace(w1) && AllWhiteSpace(w2) && Trimmed(s)
    requires !EndsWith(s, " m")
    ensures NormalizeLength(Text(w1 + s + " m" + w2), parse) == parse(s)
    ensures NormalizeLength(Text(s), parse) == parse(s)
  {
    var x := s + " m";
    assert w1 + s + " m" + w2 == w1 + x + w2;
    TrimSurrounded(w1, x, w2);
    assert x[|x| - 2..] == " m";
    assert x[..|x| - 2] == s;
    BareNumeralIsParsed(s, parse);
  }
}
