/** The JavaScript string operations the admin tabs rely on: `trim`,
    `split(',')`, `join`, `toLowerCase`, `includes` and the decimal
    `toString().padStart(2, '0')` used for project numbers. */
module Text {
  import opened Lists

  /** ECMAScript's WhiteSpace and LineTerminator code points, the characters
      that `String.prototype.trim` strips. */
  predicate IsWhitespace(c: char)
  {
    || c == '\t' || c == '\n' || c == '\U{000B}' || c == '\U{000C}' || c == '\r'
    || c == ' ' || c == '\U{00A0}' || c == '\U{1680}'
    || ('\U{2000}' <= c <= '\U{200A}')
    || c == '\U{2028}' || c == '\U{2029}' || c == '\U{202F}' || c == '\U{205F}'
    || c == '\U{3000}' || c == '\U{FEFF}'
  }

  /** Neither end of `s` is whitespace. */
  predicate IsTrimmed(s: string)
  {
    s == [] || (!IsWhitespace(s[0]) && !IsWhitespace(s[|s| - 1]))
  }

  /** Every character of `s` is whitespace: the strings that `trim()` turns
      into the falsy empty string. */
  predicate IsBlank(s: string)
  {
    forall i :: 0 <= i < |s| ==> IsWhitespace(s[i])
  }

  /** `trimStart`: the longest suffix of `s` that does not start with whitespace. */
  function TrimStart(s: string): (r: string)
    ensures |r| <= |s| && r == s[|s| - |r|..]
    ensures forall i :: 0 <= i < |s| - |r| ==> IsWhitespace(s[i])
    ensures r == [] || !IsWhitespace(r[0])
  {
    if s != [] && IsWhitespace(s[0]) then TrimStart(s[1..]) else s
  }

  /** `trimEnd`: the longest prefix of `s` that does not end with whitespace. */
  function TrimEnd(s: string): (r: string)
    ensures |r| <= |s| && r == s[..|r|]
    ensures forall i :: |r| <= i < |s| ==> IsWhitespace(s[i])
    ensures r == [] || !IsWhitespace(r[|r| - 1])
  {
    if s != [] && IsWhitespace(s[|s| - 1]) then TrimEnd(s[..|s| - 1]) else s
  }

  /** `r` sits at offset `k` of `s` with only whitespace before and after it. */
  predicate IsTrimSlice(s: string, k: int, r: string)
  {
    0 <= k <= |s| - |r| && r == s[k..k + |r|] && IsBlank(s[..k]) && IsBlank(s[k + |r|..])
  }

  /** Cutting leading whitespace and then trailing whitespace leaves a slice
      of the input with only whitespace around it. */
  lemma TrimSliceOf(s: string, k: nat, a: string, r: string)
    requires k <= |s| && a == s[k..] && |r| <= |a| && r == a[..|r|]
    requires forall i :: 0 <= i < k ==> IsWhitespace(s[i])
    requires forall i :: |r| <= i < |a| ==> IsWhitespace(a[i])
    ensures IsTrimSlice(s, k, r)
  {
    var tail := s[k + |r|..];
    assert forall i :: 0 <= i < |tail| ==> tail[i] == a[|r| + i];
  }

  /** `String.prototype.trim`. */
  function Trim(s: string): (r: string)
    ensures IsTrimmed(r)
    ensures |r| <= |s|
    ensures r == [] <==> IsBlank(s)
    ensures IsTrimmed(s) ==> r == s
  {
    var a := TrimStart(s);
    var r := TrimEnd(a);
    assert r != [] ==> !IsBlank(s) by {
      if r != [] {
        assert a != [] && !IsWhitespace(a[0]);
        assert s[|s| - |a|] == a[0];
      }
    }
    assert IsTrimmed(s) ==> r == s by {
      if IsTrimmed(s) && s != [] {
        assert a == s;
      }
    }
    r
  }

  /** `trim()` removes only whitespace, and only at the two ends: its result
      is a slice of the input with nothing but whitespace before and after it. */
  lemma TrimIsSlice(s: string)
    ensures exists k :: IsTrimSlice(s, k, Trim(s))
  {
    var a := TrimStart(s);
    var r := TrimEnd(a);
    var k := |s| - |a|;
    TrimSliceOf(s, k, a, r);
    assert Trim(s) == r;
    assert IsTrimSlice(s, k, Trim(s));
  }

  /** A leading whitespace character makes no difference to `trim()`. */
  lemma TrimSkipsLeadingSpace(c: char, s: string)
    requires IsWhitespace(c)
    ensures Trim([c] + s) == Trim(s)
  {
    assert ([c] + s)[1..] == s;
  }

  /** `str.split(sep)` for a one-character separator: the maximal runs of
      characters between separators, always at least one (possibly empty). */
  function Split(s: string, sep: char): (r: seq<string>)
    ensures |r| >= 1
    ensures forall i :: 0 <= i < |r| ==> sep !in r[i]
    ensures Join(r, [sep]) == s
  {
    if s == [] then [""]
    else if s[0] == sep then
      var rest := Split(s[1..], sep);
      assert s == [sep] + s[1..];
      [""] + rest
    else
      var rest := Split(s[1..], sep);
      var r := [[s[0]] + rest[0]] + rest[1..];
      assert s == [s[0]] + s[1..];
      assert Join(r, [sep]) == s by {
        if |rest| > 1 {
          assert r[1..] == rest[1..];
          assert Join(rest, [sep]) == rest[0] + [sep] + Join(rest[1..], [sep]);
        }
      }
      r
  }

  /** `array.join(sep)`: a single element is its own join, and a character
      that is in no element and not in the separator is not in the result. */
  function Join(xs: seq<string>, sep: string): (r: string)
    ensures |xs| == 1 ==> r == xs[0]
  {
    if |xs| == 0 then ""
    else if |xs| == 1 then xs[0]
    else xs[0] + sep + Join(xs[1..], sep)
  }

  /** A character that is in no element and not in the separator is not in the join. */
  lemma {:induction false} JoinAvoids(xs: seq<string>, sep: string, c: char)
    requires c !in sep
    requires forall i :: 0 <= i < |xs| ==> c !in xs[i]
    ensures c !in Join(xs, sep)
  {
    if |xs| > 1 {
      JoinAvoids(xs[1..], sep, c);
      assert c !in xs[0];
    }
  }

  /** A piece free of the separator, followed by the separator, splits off as one piece. */
  lemma {:induction false} SplitAfterPiece(a: string, b: string, sep: char)
    requires sep !in a
    ensures Split(a + [sep] + b, sep) == [a] + Split(b, sep)
    decreases |a|
  {
    var s := a + [sep] + b;
    if a == [] {
      assert s == [sep] + b;
      assert s[0] == sep && s[1..] == b;
    } else {
      assert s[0] == a[0] && s[0] != sep;
      assert s[1..] == a[1..] + [sep] + b;
      SplitAfterPiece(a[1..], b, sep);
      var rest := Split(s[1..], sep);
      assert rest == [a[1..]] + Split(b, sep);
      assert rest[0] == a[1..] && rest[1..] == Split(b, sep);
      assert Split(s, sep) == [[s[0]] + rest[0]] + rest[1..];
      assert [a[0]] + a[1..] == a;
    }
  }

  /** Splitting `a + sep + b` splits `a` and `b` separately: the separator
      between them ends the last piece of `a`. */
  lemma {:induction false} SplitConcat(a: string, b: string, sep: char)
    ensures Split(a + [sep] + b, sep) == Split(a, sep) + Split(b, sep)
    decreases |a|
  {
    if a == [] {
      var s := a + [sep] + b;
      assert s == [sep] + b;
      SplitStep(s, sep);
      assert s[1..] == b;
    } else {
      SplitConcat(a[1..], b, sep);
      SplitConcatStep(a, b, sep);
    }
  }

  /** The inductive step of `SplitConcat`: prepending one character to the
      left part keeps the split of the whole the concatenation of the splits. */
  lemma SplitConcatStep(a: string, b: string, sep: char)
    requires a != []
    requires Split(a[1..] + [sep] + b, sep) == Split(a[1..], sep) + Split(b, sep)
    ensures Split(a + [sep] + b, sep) == Split(a, sep) + Split(b, sep)
  {
    var s := a + [sep] + b;
    assert s[0] == a[0] && s[1..] == a[1..] + [sep] + b;
    SplitStep(s, sep);
    SplitStep(a, sep);
    ConsPieces(a[0], sep, Split(a[1..], sep), Split(b, sep));
  }

  /** Putting character `c` in front of a split `ra + rb` (with `ra` non-empty)
      is the same as putting it in front of `ra` and appending `rb`. */
  lemma ConsPieces(c: char, sep: char, ra: seq<string>, rb: seq<string>)
    requires |ra| >= 1
    ensures c == sep ==> [""] + (ra + rb) == ([""] + ra) + rb
    ensures c != sep ==> [[c] + (ra + rb)[0]] + (ra + rb)[1..] == ([[c] + ra[0]] + ra[1..]) + rb
  {
    assert (ra + rb)[1..] == ra[1..] + rb;
  }

  /** One step of the split: a leading separator opens an empty piece, any
      other leading character joins the first piece of the rest. */
  lemma SplitStep(s: string, sep: char)
    requires s != []
    ensures s[0] == sep ==> Split(s, sep) == [""] + Split(s[1..], sep)
    ensures s[0] != sep ==> Split(s, sep) == [[s[0]] + Split(s[1..], sep)[0]] + Split(s[1..], sep)[1..]
  {
  }

  /** A string free of the separator splits into itself. */
  lemma {:induction false} SplitWhole(a: string, sep: char)
    requires sep !in a
    ensures Split(a, sep) == [a]
  {
    if a != [] {
      assert a[0] != sep;
      SplitWhole(a[1..], sep);
      assert [a[0]] + a[1..] == a;
    }
  }

  /** The pieces of `p + xs.join(", ")` split at commas: the first piece carries
      the prefix `p`, every later one the blank that follows its comma. */
  lemma {:induction false} SplitJoinedPieces(p: string, xs: seq<string>)
    requires |xs| >= 1
    requires ',' !in p
    requires forall i :: 0 <= i < |xs| ==> ',' !in xs[i]
    ensures var r := Split(p + Join(xs, ", "), ',');
      && |r| == |xs| && r[0] == p + xs[0]
      && forall i :: 1 <= i < |xs| ==> r[i] == " " + xs[i]
    decreases |xs|
  {
    if |xs| == 1 {
      SplitWhole(p + xs[0], ',');
    } else {
      var tail := xs[1..];
      assert p + Join(xs, ", ") == (p + xs[0]) + [','] + (" " + Join(tail, ", "));
      SplitAfterPiece(p + xs[0], " " + Join(tail, ", "), ',');
      SplitJoinedPieces(" ", tail);
    }
  }

  /** `toLowerCase` on one character; only the ASCII letters are mapped. */
  function LowerChar(c: char): (r: char)
    ensures 'A' <= c <= 'Z' ==> 'a' <= r <= 'z' && r as int == c as int + 32
    ensures !('A' <= c <= 'Z') ==> r == c
  {
    if 'A' <= c <= 'Z' then (c as int + 32) as char else c
  }

  /** `toLowerCase` (ASCII letters only). */
  function Lower(s: string): (r: string)
    ensures |r| == |s|
    ensures forall i :: 0 <= i < |s| ==> r[i] == LowerChar(s[i])
  {
    seq(|s|, i requires 0 <= i < |s| => LowerChar(s[i]))
  }

  /** Lower-casing twice is lower-casing once. */
  lemma LowerIdempotent(s: string)
    ensures Lower(Lower(s)) == Lower(s)
  {
  }

  /** `s.includes(q)`: `q` occurs in `s` as a contiguous substring. Every
      string includes the empty string, and none includes a longer one. */
  function Contains(s: string, q: string): (b: bool)
    ensures q == [] ==> b
    ensures b ==> |q| <= |s|
  {
    assert q == [] ==> OccursAt(s, q, 0);
    exists i :: 0 <= i <= |s| - |q| && OccursAt(s, q, i)
  }

  /** `q` occurs in `s` starting at index `i`. */
  predicate OccursAt(s: string, q: string, i: int)
  {
    0 <= i <= |s| - |q| && s[i..i + |q|] == q
  }

  /** The digit character of `d`. */
  function DigitChar(d: nat): (c: char)
    requires d < 10
    ensures '0' <= c <= '9' && c as int - '0' as int == d
  {
    (('0' as int) + d) as char
  }

  predicate IsDigits(s: string)
  {
    forall i :: 0 <= i < |s| ==> '0' <= s[i] <= '9'
  }

  /** `n.toString()` for a natural number: its decimal digits, no leading zero. */
  function NatToDecimal(n: nat): (r: string)
    ensures |r| >= 1 && IsDigits(r)
    ensures r[0] == '0' ==> n == 0
    ensures n < 10 <==> |r| == 1
  {
    if n < 10 then [DigitChar(n)] else NatToDecimal(n / 10) + [DigitChar(n % 10)]
  }

  /** The number a string of decimal digits denotes; `0` for the empty string. */
  function DecimalValue(s: string): nat
    requires IsDigits(s)
  {
    if s == [] then 0
    else DecimalValue(s[..|s| - 1]) * 10 + (s[|s| - 1] as int - '0' as int)
  }

  /** Reading back the decimal form of `n` gives `n`. */
  lemma {:induction false} DecimalRoundTrip(n: nat)
    ensures DecimalValue(NatToDecimal(n)) == n
  {
    if n >= 10 {
      DecimalRoundTrip(n / 10);
      var s := NatToDecimal(n);
      assert s[..|s| - 1] == NatToDecimal(n / 10);
    }
  }

  /** Leading zeros do not change the value of a digit string. */
  lemma {:induction false} LeadingZeroValue(s: string)
    requires IsDigits(s)
    ensures DecimalValue("0" + s) == DecimalValue(s)
    decreases |s|
  {
    if s != [] {
      var init := s[..|s| - 1];
      LeadingZeroValue(init);
      assert ("0" + s)[..|"0" + s| - 1] == "0" + init;
    }
  }

  /** `s.padStart(width, c)`: `c` repeated in front of `s` up to `width` characters. */
  function PadStart(s: string, width: nat, c: char): (r: string)
    ensures |r| == if |s| >= width then |s| else width
    ensures r[|r| - |s|..] == s
    ensures forall i :: 0 <= i < |r| - |s| ==> r[i] == c
  {
    if |s| >= width then s else seq(width - |s|, _ => c) + s
  }

  /** Padding `s` is padding `c + s`, as long as `s` is still too short. */
  lemma PadStartStep(s: string, width: nat, c: char)
    requires |s| < width
    ensures PadStart(s, width, c) == PadStart([c] + s, width, c)
  {
    var a := PadStart(s, width, c);
    var b := PadStart([c] + s, width, c);
    forall i | 0 <= i < |a| ensures a[i] == b[i] {
      if i >= |a| - |s| {
        assert a[i] == s[i - (|a| - |s|)];
        assert b[i] == ([c] + s)[i - (|b| - |s| - 1)];
      }
    }
    PointwiseEqual(a, b);
  }

  /** Padding digits with zeros keeps their value. */
  lemma {:induction false} ZeroPadValue(s: string, width: nat)
    requires IsDigits(s)
    ensures IsDigits(PadStart(s, width, '0'))
    ensures DecimalValue(PadStart(s, width, '0')) == DecimalValue(s)
    decreases width - |s|
  {
    if |s| < width {
      LeadingZeroValue(s);
      ZeroPadValue("0" + s, width);
      PadStartStep(s, width, '0');
    }
  }
}
