/**
 * The PHP and Laravel string primitives the request-to-query engine relies on:
 * `Str::contains`, `Str::lower`/`Str::upper` (ASCII letters only), `explode`
 * and `implode`, `str_replace` of single characters, `intval` and `is_numeric`.
 */
module PhpStrings {

  // ---------------------------------------------------------------------------
  // Substrings

  /** `needle` occurs in `s` starting at position `i`. */
  predicate OccursAt(s: string, needle: string, i: int)
  {
    0 <= i && i + |needle| <= |s| && s[i..i + |needle|] == needle
  }

  /** `Str::contains($s, $needle)`: an empty needle never matches. */
  predicate Contains(s: string, needle: string)
  {
    needle != "" && exists i | 0 <= i <= |s| :: OccursAt(s, needle, i)
  }

  /** `Str::contains($s, [$n0, $n1, ...])`: some needle of the list occurs. */
  predicate ContainsAny(s: string, needles: seq<string>)
  {
    exists k :: 0 <= k < |needles| && Contains(s, needles[k])
  }

  predicate IsPrefix(p: string, s: string)
  {
    |p| <= |s| && s[..|p|] == p
  }

  predicate IsSuffix(p: string, s: string)
  {
    |p| <= |s| && s[|s| - |p|..] == p
  }

  // ---------------------------------------------------------------------------
  // Case mapping (ASCII; multibyte case folding is not modelled)

  function LowerChar(c: char): char
  {
    if 'A' <= c <= 'Z' then (c as int + 32) as char else c
  }

  function UpperChar(c: char): char
  {
    if 'a' <= c <= 'z' then (c as int - 32) as char else c
  }

  /** `Str::lower`. */
  function Lower(s: string): (r: string)
    ensures |r| == |s|
    ensures forall i :: 0 <= i < |s| ==> r[i] == LowerChar(s[i])
  {
    seq(|s|, i requires 0 <= i < |s| => LowerChar(s[i]))
  }

  /** `Str::upper`. */
  function Upper(s: string): (r: string)
    ensures |r| == |s|
    ensures forall i :: 0 <= i < |s| ==> r[i] == UpperChar(s[i])
  {
    seq(|s|, i requires 0 <= i < |s| => UpperChar(s[i]))
  }

  /** A character upper-cases to a space, `A` or `S` exactly when it lower-cases to a space, `a` or `s`. */
  lemma CaseOfAsChars(c: char)
    ensures UpperChar(c) == ' ' <==> LowerChar(c) == ' '
    ensures UpperChar(c) == 'A' <==> LowerChar(c) == 'a'
    ensures UpperChar(c) == 'S' <==> LowerChar(c) == 's'
  {
  }

  /** Four characters starting at `i` spell `w` exactly when each of them is the matching letter of `w`. */
  lemma SliceOfFour(t: string, i: int, w: string)
    requires 0 <= i && i + 4 <= |t| && |w| == 4
    ensures t[i..i + 4] == w <==> t[i] == w[0] && t[i + 1] == w[1] && t[i + 2] == w[2] && t[i + 3] == w[3]
  {
    if t[i] == w[0] && t[i + 1] == w[1] && t[i + 2] == w[2] && t[i + 3] == w[3] {
      assert forall k :: 0 <= k < 4 ==> t[i..i + 4][k] == w[k];
    }
  }

  /** ` AS ` starts at `i` in the upper-cased text exactly when ` as ` starts there in the lower-cased text. */
  lemma AsOccursAt(s: string, i: int)
    ensures OccursAt(Upper(s), " AS ", i) <==> OccursAt(Lower(s), " as ", i)
  {
    var up, low := Upper(s), Lower(s);
    if 0 <= i && i + 4 <= |s| {
      CaseOfAsChars(s[i]);
      CaseOfAsChars(s[i + 1]);
      CaseOfAsChars(s[i + 2]);
      CaseOfAsChars(s[i + 3]);
      assert up[i] == UpperChar(s[i]) && up[i + 1] == UpperChar(s[i + 1]);
      assert up[i + 2] == UpperChar(s[i + 2]) && up[i + 3] == UpperChar(s[i + 3]);
      assert low[i] == LowerChar(s[i]) && low[i + 1] == LowerChar(s[i + 1]);
      assert low[i + 2] == LowerChar(s[i + 2]) && low[i + 3] == LowerChar(s[i + 3]);
      SliceOfFour(up, i, " AS ");
      SliceOfFour(low, i, " as ");
    }
  }

  /**
   * The guard `Str::contains(Str::upper($c), ' AS ')` and the separator
   * `' as '` that is then looked for in `Str::lower($c)` agree: one occurs
   * exactly where the other does.
   */
  lemma UpperAsIffLowerAs(s: string)
    ensures Contains(Upper(s), " AS ") <==> Contains(Lower(s), " as ")
  {
    var up, low := Upper(s), Lower(s);
    if Contains(up, " AS ") {
      var i :| 0 <= i <= |up| && OccursAt(up, " AS ", i);
      AsOccursAt(s, i);
      assert OccursAt(low, " as ", i);
    }
    if Contains(low, " as ") {
      var i :| 0 <= i <= |low| && OccursAt(low, " as ", i);
      AsOccursAt(s, i);
      assert OccursAt(up, " AS ", i);
    }
  }

  // ---------------------------------------------------------------------------
  // explode / implode

  /**
   * `explode($sep, $s)`: the pieces of `s` between the non-overlapping
   * occurrences of `sep`, found from left to right.
   */
  function Split(s: string, sep: string): (pieces: seq<string>)
    requires sep != ""
    ensures |pieces| >= 1
  {
    SplitFrom(s, sep, "")
  }

  /** Scanning state of `Split`: `cur` is the piece read so far. */
  function SplitFrom(s: string, sep: string, cur: string): (pieces: seq<string>)
    requires sep != ""
    ensures |pieces| >= 1
    decreases |s|
  {
    if s == "" then [cur]
    else if IsPrefix(sep, s) then [cur] + SplitFrom(s[|sep|..], sep, "")
    else SplitFrom(s[1..], sep, cur + [s[0]])
  }

  /** `implode($sep, $pieces)`. */
  function Join(pieces: seq<string>, sep: string): string
  {
    if |pieces| == 0 then ""
    else if |pieces| == 1 then pieces[0]
    else pieces[0] + sep + Join(pieces[1..], sep)
  }

  /** Gluing the pieces back with the separator gives the scanned text. */
  lemma {:induction false} JoinSplitFrom(s: string, sep: string, cur: string)
    requires sep != ""
    ensures Join(SplitFrom(s, sep, cur), sep) == cur + s
    decreases |s|
  {
    if s == "" {
    } else if IsPrefix(sep, s) {
      JoinSplitFrom(s[|sep|..], sep, "");
      assert s == sep + s[|sep|..];
    } else {
      JoinSplitFrom(s[1..], sep, cur + [s[0]]);
      assert cur + [s[0]] + s[1..] == cur + s;
    }
  }

  /** `implode($sep, explode($sep, $s)) == $s`. */
  lemma JoinSplit(s: string, sep: string)
    requires sep != ""
    ensures Join(Split(s, sep), sep) == s
  {
    JoinSplitFrom(s, sep, "");
  }

  /** A scan that yields a single piece met no separator. */
  lemma {:induction false} SinglePieceHasNoSeparator(s: string, sep: string, cur: string)
    requires sep != ""
    requires |SplitFrom(s, sep, cur)| == 1
    ensures !Contains(s, sep)
    decreases |s|
  {
    if s == "" {
    } else if IsPrefix(sep, s) {
      // SplitFrom yields two pieces or more here, against the precondition
    } else {
      SinglePieceHasNoSeparator(s[1..], sep, cur + [s[0]]);
      if Contains(s, sep) {
        var i :| 0 <= i <= |s| && OccursAt(s, sep, i);
        assert i != 0;
        assert s[1..][i - 1..i - 1 + |sep|] == s[i..i + |sep|];
        assert OccursAt(s[1..], sep, i - 1);
      }
    }
  }

  /**
   * No piece of a scan contains the separator, provided no occurrence starts
   * inside the piece read so far.
   */
  lemma {:induction false} SplitFromPiecesFree(s: string, sep: string, cur: string)
    requires sep != ""
    requires forall j | 0 <= j < |cur| :: !OccursAt(cur + s, sep, j)
    ensures forall k | 0 <= k < |SplitFrom(s, sep, cur)| :: !Contains(SplitFrom(s, sep, cur)[k], sep)
    decreases |s|
  {
    var pieces := SplitFrom(s, sep, cur);
    if s == "" {
      assert cur + s == cur;
      CurFree(cur, s, sep);
    } else if IsPrefix(sep, s) {
      SplitFromPiecesFree(s[|sep|..], sep, "");
      CurFree(cur, s, sep);
    } else {
      forall j | 0 <= j < |cur + [s[0]]|
        ensures !OccursAt(cur + [s[0]] + s[1..], sep, j)
      {
        assert cur + [s[0]] + s[1..] == cur + s;
        if j == |cur| {
          if j + |sep| <= |cur + s| {
            assert (cur + s)[j..j + |sep|] == s[..|sep|];
          }
        }
      }
      SplitFromPiecesFree(s[1..], sep, cur + [s[0]]);
    }
  }

  /** A separator inside `cur` would be one starting inside `cur` in `cur + s`. */
  lemma CurFree(cur: string, s: string, sep: string)
    requires sep != ""
    requires forall j | 0 <= j < |cur| :: !OccursAt(cur + s, sep, j)
    ensures !Contains(cur, sep)
  {
    forall i | 0 <= i <= |cur|
      ensures !OccursAt(cur, sep, i)
    {
      if i + |sep| <= |cur| {
        assert !OccursAt(cur + s, sep, i);
        assert (cur + s)[i..i + |sep|] == cur[i..i + |sep|];
      }
    }
  }

  /** No piece `explode` returns contains the separator. */
  lemma SplitPiecesFree(s: string, sep: string)
    requires sep != ""
    ensures forall k | 0 <= k < |Split(s, sep)| :: !Contains(Split(s, sep)[k], sep)
  {
    SplitFromPiecesFree(s, sep, "");
  }

  /** Where piece `k` starts in the text the pieces were joined into. */
  function PieceStart(pieces: seq<string>, sep: string, k: nat): nat
    requires k <= |pieces|
  {
    if k == 0 then 0 else PieceStart(pieces, sep, k - 1) + |pieces[k - 1]| + |sep|
  }

  /** No occurrence of `sep` in `s` starts inside any piece, positions counted in `s`. */
  predicate SeparatorFreeCut(pieces: seq<string>, s: string, sep: string)
  {
    forall k | 0 <= k < |pieces| ::
      forall j | PieceStart(pieces, sep, k) <= j < PieceStart(pieces, sep, k) + |pieces[k]| :: !OccursAt(s, sep, j)
  }

  /**
   * The left-to-right cut of `s` at `sep`, defined independently of the scan:
   * pieces that join back into `s`, each ending at the first occurrence of
   * `sep` that starts inside it or after it.
   */
  predicate LeftToRightCut(pieces: seq<string>, s: string, sep: string)
  {
    |pieces| >= 1 && Join(pieces, sep) == s && SeparatorFreeCut(pieces, s, sep)
  }

  /** Prefixing a piece shifts the start of every later piece by that piece and a separator. */
  lemma {:induction false} PieceStartCons(p: string, pieces: seq<string>, sep: string, k: nat)
    requires k <= |pieces|
    ensures PieceStart([p] + pieces, sep, k + 1) == |p| + |sep| + PieceStart(pieces, sep, k)
  {
    if k > 0 {
      PieceStartCons(p, pieces, sep, k - 1);
      assert ([p] + pieces)[k] == pieces[k - 1];
    }
  }

  /** An occurrence in `t` is one in `a + t`, shifted by `|a|`. */
  lemma OccursShift(a: string, t: string, sep: string, j: int)
    requires j >= 0
    ensures OccursAt(a + t, sep, |a| + j) == OccursAt(t, sep, j)
  {
    if j + |sep| <= |t| {
      assert (a + t)[|a| + j..|a| + j + |sep|] == t[j..j + |sep|];
    }
  }

  /** A first piece free of separators, before a cut of the rest, is a cut of the whole. */
  lemma CutCons(p: string, pieces: seq<string>, t: string, sep: string)
    requires forall j | 0 <= j < |p| :: !OccursAt(p + sep + t, sep, j)
    requires SeparatorFreeCut(pieces, t, sep)
    ensures SeparatorFreeCut([p] + pieces, p + sep + t, sep)
  {
    var ps := [p] + pieces;
    forall k | 0 <= k < |ps|
      ensures forall j | PieceStart(ps, sep, k) <= j < PieceStart(ps, sep, k) + |ps[k]| :: !OccursAt(p + sep + t, sep, j)
    {
      if k == 0 {
        assert PieceStart(ps, sep, 0) == 0 && ps[0] == p;
      } else {
        PieceStartCons(p, pieces, sep, k - 1);
        var start := PieceStart(pieces, sep, k - 1);
        assert ps[k] == pieces[k - 1];
        forall j | PieceStart(ps, sep, k) <= j < PieceStart(ps, sep, k) + |ps[k]|
          ensures !OccursAt(p + sep + t, sep, j)
        {
          var i := j - |p + sep|;
          assert start <= i < start + |pieces[k - 1]|;
          assert !OccursAt(t, sep, i);
          OccursShift(p + sep, t, sep, i);
        }
      }
    }
  }

  /** The pieces after the first of a cut are a cut of the text after the first separator. */
  lemma CutTail(p: string, pieces: seq<string>, t: string, sep: string)
    requires SeparatorFreeCut([p] + pieces, p + sep + t, sep)
    ensures SeparatorFreeCut(pieces, t, sep)
  {
    var ps := [p] + pieces;
    forall k | 0 <= k < |pieces|
      ensures forall j | PieceStart(pieces, sep, k) <= j < PieceStart(pieces, sep, k) + |pieces[k]| :: !OccursAt(t, sep, j)
    {
      PieceStartCons(p, pieces, sep, k);
      assert ps[k + 1] == pieces[k];
      forall j | PieceStart(pieces, sep, k) <= j < PieceStart(pieces, sep, k) + |pieces[k]|
        ensures !OccursAt(t, sep, j)
      {
        OccursShift(p + sep, t, sep, j);
        assert !OccursAt(p + sep + t, sep, |p + sep| + j);
      }
    }
  }

  /** The pieces of a scan cut the scanned text from left to right. */
  lemma {:induction false} SplitFromIsCut(s: string, sep: string, cur: string)
    requires sep != ""
    requires forall j | 0 <= j < |cur| :: !OccursAt(cur + s, sep, j)
    ensures SeparatorFreeCut(SplitFrom(s, sep, cur), cur + s, sep)
    decreases |s|
  {
    if s == "" {
      assert cur + s == cur;
      assert PieceStart([cur], sep, 0) == 0;
    } else if IsPrefix(sep, s) {
      var t := s[|sep|..];
      assert "" + t == t;
      SplitFromIsCut(t, sep, "");
      assert cur + s == cur + sep + t;
      CutCons(cur, SplitFrom(t, sep, ""), t, sep);
    } else {
      forall j | 0 <= j < |cur + [s[0]]|
        ensures !OccursAt(cur + [s[0]] + s[1..], sep, j)
      {
        assert cur + [s[0]] + s[1..] == cur + s;
        if j == |cur| && j + |sep| <= |cur + s| {
          assert (cur + s)[j..j + |sep|] == s[..|sep|];
        }
      }
      SplitFromIsCut(s[1..], sep, cur + [s[0]]);
      assert cur + [s[0]] + s[1..] == cur + s;
    }
  }

  /** `explode` returns a left-to-right cut of its text. */
  lemma SplitIsLeftToRightCut(s: string, sep: string)
    requires sep != ""
    ensures LeftToRightCut(Split(s, sep), s, sep)
  {
    JoinSplit(s, sep);
    SplitFromIsCut(s, sep, "");
    assert "" + s == s;
  }

  /** The first piece of a cut ends at the first occurrence of the separator, or at the end. */
  lemma FirstPiece(pieces: seq<string>, s: string, sep: string)
    requires sep != "" && LeftToRightCut(pieces, s, sep)
    ensures forall j | 0 <= j < |pieces[0]| :: !OccursAt(s, sep, j)
    ensures |pieces| == 1 ==> pieces[0] == s && !Contains(s, sep)
    ensures |pieces| >= 2 ==> IsPrefix(pieces[0] + sep, s) && OccursAt(s, sep, |pieces[0]|) && Contains(s, sep)
  {
    assert PieceStart(pieces, sep, 0) == 0;
    if |pieces| == 1 {
      forall i | 0 <= i <= |s|
        ensures !OccursAt(s, sep, i)
      {
        if i < |s| {
          assert PieceStart(pieces, sep, 0) <= i < PieceStart(pieces, sep, 0) + |pieces[0]|;
        }
      }
    } else {
      var rest := Join(pieces[1..], sep);
      assert s == pieces[0] + sep + rest;
      assert s[|pieces[0]|..|pieces[0]| + |sep|] == sep;
      assert OccursAt(s, sep, |pieces[0]|);
    }
  }

  /** A text has one left-to-right cut at a separator. */
  lemma {:induction false} LeftToRightCutUnique(ps: seq<string>, qs: seq<string>, s: string, sep: string)
    requires sep != "" && LeftToRightCut(ps, s, sep) && LeftToRightCut(qs, s, sep)
    ensures ps == qs
    decreases |ps|
  {
    FirstPiece(ps, s, sep);
    FirstPiece(qs, s, sep);
    if Contains(s, sep) {
      var n := |ps[0]|;
      assert n <= |qs[0]| && |qs[0]| <= n;
      assert ps[0] == s[..n] == qs[0];
      var t := s[n + |sep|..];
      assert s == ps[0] + sep + t;
      assert ps == [ps[0]] + ps[1..] && qs == [qs[0]] + qs[1..];
      assert Join(ps[1..], sep) == t && Join(qs[1..], sep) == t;
      CutTail(ps[0], ps[1..], t, sep);
      CutTail(qs[0], qs[1..], t, sep);
      LeftToRightCutUnique(ps[1..], qs[1..], t, sep);
    }
  }

  /** `explode` returns the only left-to-right cut of its text. */
  lemma SplitIsTheCut(s: string, sep: string)
    requires sep != ""
    ensures forall ps :: LeftToRightCut(ps, s, sep) ==> ps == Split(s, sep)
  {
    SplitIsLeftToRightCut(s, sep);
    forall ps | LeftToRightCut(ps, s, sep)
      ensures ps == Split(s, sep)
    {
      LeftToRightCutUnique(ps, Split(s, sep), s, sep);
    }
  }

  /** `explode` cuts a string that contains the separator into two pieces or more. */
  lemma SplitAtSeparator(s: string, sep: string)
    requires sep != "" && Contains(s, sep)
    ensures |Split(s, sep)| >= 2
  {
    if |Split(s, sep)| == 1 {
      SinglePieceHasNoSeparator(s, sep, "");
    }
  }

  /** A scan that meets no separator yields the scanned text as its only piece. */
  lemma {:induction false} NoSeparatorOnePieceFrom(s: string, sep: string, cur: string)
    requires sep != "" && !Contains(s, sep)
    ensures SplitFrom(s, sep, cur) == [cur + s]
    decreases |s|
  {
    if s != "" {
      assert !OccursAt(s, sep, 0);
      assert !IsPrefix(sep, s);
      forall i | 0 <= i <= |s[1..]|
        ensures !OccursAt(s[1..], sep, i)
      {
        if OccursAt(s[1..], sep, i) {
          assert s[1..][i..i + |sep|] == s[i + 1..i + 1 + |sep|];
          assert OccursAt(s, sep, i + 1);
        }
      }
      NoSeparatorOnePieceFrom(s[1..], sep, cur + [s[0]]);
      assert cur + [s[0]] + s[1..] == cur + s;
    } else {
      assert cur + s == cur;
    }
  }

  /** `explode` returns the whole string when the separator does not occur in it. */
  lemma NoSeparatorOnePiece(s: string, sep: string)
    requires sep != "" && !Contains(s, sep)
    ensures Split(s, sep) == [s]
  {
    NoSeparatorOnePieceFrom(s, sep, "");
    assert "" + s == s;
  }

  /** The last piece of a join of two pieces or more follows the last separator. */
  lemma {:induction false} JoinLast(pieces: seq<string>, sep: string)
    requires |pieces| >= 2
    ensures Join(pieces, sep) == Join(pieces[..|pieces| - 1], sep) + sep + pieces[|pieces| - 1]
    decreases |pieces|
  {
    if |pieces| > 2 {
      JoinLast(pieces[1..], sep);
      assert pieces[1..][..|pieces| - 2] == pieces[..|pieces| - 1][1..];
    }
  }

  // ---------------------------------------------------------------------------
  // Character replacement

  /** `str_replace($from, $to, $s)` for a one-character search and replacement. */
  function ReplaceChar(s: string, from: char, to: char): (r: string)
    ensures |r| == |s|
    ensures forall i :: 0 <= i < |s| ==> r[i] == (if s[i] == from then to else s[i])
  {
    seq(|s|, i requires 0 <= i < |s| => if s[i] == from then to else s[i])
  }

  /** `str_replace("'", "''", $s)`: every single quote doubled. */
  function DoubleQuotes(s: string): (r: string)
    ensures r == "" <==> s == ""
  {
    if s == "" then ""
    else (if s[0] == '\'' then "''" else [s[0]]) + DoubleQuotes(s[1..])
  }

  lemma {:induction false} DoubleQuotesAppend(a: string, b: string)
    ensures DoubleQuotes(a + b) == DoubleQuotes(a) + DoubleQuotes(b)
    decreases |a|
  {
    if a != "" {
      DoubleQuotesAppend(a[1..], b);
      assert (a + b)[1..] == a[1..] + b;
    } else {
      assert a + b == b;
    }
  }

  /** Text without a quote is left as it is. */
  lemma {:induction false} DoubleQuotesWithoutQuote(s: string)
    requires forall i :: 0 <= i < |s| ==> s[i] != '\''
    ensures DoubleQuotes(s) == s
  {
    if s != "" {
      DoubleQuotesWithoutQuote(s[1..]);
      assert [s[0]] + s[1..] == s;
    }
  }

  // ---------------------------------------------------------------------------
  // intval / is_numeric (decimal integers; exponent forms and 64-bit
  // saturation are not modelled)

  predicate IsDigit(c: char)
  {
    '0' <= c <= '9'
  }

  predicate AllDigits(s: string)
  {
    forall i :: 0 <= i < |s| ==> IsDigit(s[i])
  }

  /** The white space `intval` and `is_numeric` skip before a number. */
  predicate IsSpace(c: char)
  {
    c == ' ' || c == '\t' || c == '\n' || c == '\r' || c as int == 11 || c as int == 12
  }

  function TrimLeadingSpace(s: string): (r: string)
    ensures |r| <= |s|
    ensures r == "" || !IsSpace(r[0])
  {
    if s != "" && IsSpace(s[0]) then TrimLeadingSpace(s[1..]) else s
  }

  /** The longest prefix of `s` made of digits. */
  function LeadingDigits(s: string): (d: string)
    ensures IsPrefix(d, s) && AllDigits(d)
    ensures |d| < |s| ==> !IsDigit(s[|d|])
  {
    if s != "" && IsDigit(s[0]) then [s[0]] + LeadingDigits(s[1..]) else ""
  }

  /** How many digits `s` starts with. */
  function DigitCount(s: string): (n: nat)
    ensures n <= |s|
  {
    if s != "" && IsDigit(s[0]) then 1 + DigitCount(s[1..]) else 0
  }

  /** The value of a run of digits, most significant first. */
  function DigitsValue(d: string): nat
  {
    if d == "" then 0
    else DigitsValue(d[..|d| - 1]) * 10 + (if IsDigit(d[|d| - 1]) then d[|d| - 1] as int - '0' as int else 0)
  }

  /** The value of the digits `s` starts with (0 when there are none). */
  function LeadingValue(s: string): nat
  {
    DigitsValue(s[..DigitCount(s)])
  }

  /** `intval($s)` / `(int)$s` on a string. */
  function IntVal(s: string): int
  {
    var t := TrimLeadingSpace(s);
    if t != "" && t[0] == '-' then -(LeadingValue(t[1..]) as int)
    else if t != "" && t[0] == '+' then LeadingValue(t[1..])
    else LeadingValue(t)
  }

  function Digit(n: nat): char
    requires n < 10
  {
    ('0' as int + n) as char
  }

  /** Decimal text of a natural number, as PHP prints it. */
  function NatToString(n: nat): (s: string)
    ensures s != "" && AllDigits(s)
  {
    if n < 10 then [Digit(n)] else NatToString(n / 10) + [Digit(n % 10)]
  }

  function IntToString(n: int): string
  {
    if n < 0 then "-" + NatToString(-n) else NatToString(n)
  }

  lemma {:induction false} DigitsValueOfNatToString(n: nat)
    ensures DigitsValue(NatToString(n)) == n
  {
    if n >= 10 {
      DigitsValueOfNatToString(n / 10);
      var s := NatToString(n);
      assert s[..|s| - 1] == NatToString(n / 10);
    }
  }

  lemma {:induction false} DigitCountOfDigits(d: string)
    requires AllDigits(d)
    ensures DigitCount(d) == |d|
  {
    if d != "" {
      DigitCountOfDigits(d[1..]);
    }
  }

  lemma {:induction false} LeadingDigitsOfDigits(d: string)
    requires AllDigits(d)
    ensures LeadingDigits(d) == d
  {
    if d != "" {
      LeadingDigitsOfDigits(d[1..]);
      assert d == [d[0]] + d[1..];
    }
  }

  /** `intval` reads back every integer PHP prints: the `(int)` cast of a sent index is that index. */
  lemma IntValRoundTrip(n: int)
    ensures IntVal(IntToString(n)) == n
  {
    var m := if n < 0 then -n else n;
    var digits := NatToString(m);
    DigitsValueOfNatToString(m);
    DigitCountOfDigits(digits);
    assert digits[..|digits|] == digits;
    if n < 0 {
      var s := "-" + digits;
      assert TrimLeadingSpace(s) == s;
      assert s[1..] == digits;
    } else {
      assert TrimLeadingSpace(digits) == digits;
      assert digits[0] != '-' && digits[0] != '+';
    }
  }

  predicate AllSpace(s: string)
  {
    forall i :: 0 <= i < |s| ==> IsSpace(s[i])
  }

  /** What may follow the digits of a number: an exponent (`e7`, `E-2`, ...) or nothing, then trailing space. */
  predicate IsNumberTail(e: string)
  {
    AllSpace(e) ||
    ((e[0] == 'e' || e[0] == 'E') &&
     var f := if |e| > 1 && (e[1] == '+' || e[1] == '-') then e[2..] else e[1..];
     var d := LeadingDigits(f);
     d != "" && AllSpace(f[|d|..]))
  }

  predicate IsUnsignedDecimal(u: string)
  {
    var whole := LeadingDigits(u);
    var r := u[|whole|..];
    if r != "" && r[0] == '.' then
      var frac := LeadingDigits(r[1..]);
      |whole| + |frac| > 0 && IsNumberTail(r[1 + |frac|..])
    else
      |whole| > 0 && IsNumberTail(r)
  }

  /** The text after the leading space and the sign of a number. */
  function Unsigned(s: string): string
  {
    var t := TrimLeadingSpace(s);
    if t != "" && (t[0] == '+' || t[0] == '-') then t[1..] else t
  }

  /** `is_numeric($s)` (PHP 8): optional leading space and sign, a decimal number, optional trailing space. */
  predicate IsNumeric(s: string)
  {
    IsUnsignedDecimal(Unsigned(s))
  }

  /** A numeric string with neither fraction nor exponent. */
  predicate IsIntegerNumeric(s: string)
  {
    var u := Unsigned(s);
    var d := LeadingDigits(u);
    d != "" && AllSpace(u[|d|..])
  }

  /**
   * `$s == $n` for a string and an integer (PHP 8): equal exactly when `s`
   * is a numeric string of the same value. Only integer spellings are
   * recognised here.
   */
  predicate LooselyEqualsInt(s: string, n: int)
  {
    IsIntegerNumeric(s) && IntVal(s) == n
  }

  /** Integer spellings are numeric, and the printed form of `n` loosely equals `n`. */
  lemma IntegerNumericIsNumeric(s: string)
    requires IsIntegerNumeric(s)
    ensures IsNumeric(s)
  {
    var u := Unsigned(s);
    var d := LeadingDigits(u);
    assert u[|d|..] == u[|LeadingDigits(u)|..];
    if u[|d|..] != "" {
      assert IsSpace(u[|d|..][0]);
    }
  }

  /** The printed form of every integer is a numeric string that loosely equals it. */
  lemma IntToStringIsNumeric(n: int)
    ensures IsNumeric(IntToString(n))
    ensures LooselyEqualsInt(IntToString(n), n)
  {
    var digits := NatToString(if n < 0 then -n else n);
    LeadingDigitsOfDigits(digits);
    IntValRoundTrip(n);
    assert digits[|digits|..] == "";
    if n < 0 {
      var s := "-" + digits;
      assert TrimLeadingSpace(s) == s;
      assert s[1..] == digits;
    } else {
      assert TrimLeadingSpace(digits) == digits;
    }
    IntegerNumericIsNumeric(IntToString(n));
  }
}
