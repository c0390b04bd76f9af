/**
 * The JavaScript string operations the source relies on, as total functions on
 * `seq<char>`: `trim`, `includes`, `startsWith`, the first-occurrence `replace`,
 * `split`, ASCII `toLowerCase`, and decimal rendering of integers.
 */
module Text {
  import opened Common

  // ---------------------------------------------------------------------------
  // trim

  /** The WhiteSpace and LineTerminator code points that `String.prototype.trim` removes. */
  predicate IsJsSpace(c: char) {
    || c == '\t' || c == '\n' || c == '\U{000B}' || c == '\U{000C}' || c == '\r'
    || c == ' ' || c == '\U{00A0}' || c == '\U{1680}'
    || ('\U{2000}' <= c <= '\U{200A}')
    || c == '\U{2028}' || c == '\U{2029}' || c == '\U{202F}' || c == '\U{205F}'
    || c == '\U{3000}' || c == '\U{FEFF}'
  }

  predicate AllSpace(s: string) {
    forall i :: 0 <= i < |s| ==> IsJsSpace(s[i])
  }

  /** The number of white-space characters `s` starts with. */
  function LeadingSpaces(s: string): (n: nat)
    ensures n <= |s| && AllSpace(s[..n])
    ensures n < |s| ==> !IsJsSpace(s[n])
    decreases |s|
  {
    if s != [] && IsJsSpace(s[0]) then
      var n := LeadingSpaces(s[1..]);
      assert forall i :: 1 <= i < n + 1 ==> s[i] == s[1..][..n][i - 1];
      n + 1
    else 0
  }

  /** The number of white-space characters `s` ends with. */
  function TrailingSpaces(s: string): (n: nat)
    ensures n <= |s| && AllSpace(s[|s| - n..])
    ensures n < |s| ==> !IsJsSpace(s[|s| - n - 1])
    decreases |s|
  {
    if s != [] && IsJsSpace(s[|s| - 1]) then
      var n := TrailingSpaces(s[..|s| - 1]);
      assert forall i :: |s| - n - 1 <= i < |s| - 1 ==> s[i] == s[..|s| - 1][i];
      n + 1
    else 0
  }

  /** `s` without its leading white space: a suffix of `s` that starts with a non-space. */
  function TrimStart(s: string): (r: string)
    ensures |r| <= |s| && r == s[|s| - |r|..]
    ensures AllSpace(s[..|s| - |r|])
    ensures r == [] || !IsJsSpace(r[0])
  {
    s[LeadingSpaces(s)..]
  }

  /** `s` without its trailing white space: a prefix of `s` that ends with a non-space. */
  function TrimEnd(s: string): (r: string)
    ensures |r| <= |s| && r == s[..|r|]
    ensures AllSpace(s[|r|..])
    ensures r == [] || !IsJsSpace(r[|r| - 1])
  {
    s[..|s| - TrailingSpaces(s)]
  }

  /** White space trailing `line + tail` lies within `tail` when `line` ends with a non-space. */
  lemma {:induction false} TrailingSpacesWithin(line: string, tail: string)
    requires line != [] && !IsJsSpace(line[|line| - 1])
    ensures TrailingSpaces(line + tail) <= |tail|
    decreases |tail|
  {
    var s := line + tail;
    if tail == [] {
      assert s == line;
    } else if IsJsSpace(s[|s| - 1]) {
      assert s[..|s| - 1] == line + tail[..|tail| - 1];
      TrailingSpacesWithin(line, tail[..|tail| - 1]);
    }
  }

  /** `String.prototype.trim`. */
  function Trim(s: string): string {
    TrimEnd(TrimStart(s))
  }

  /** A string trims to the empty string exactly when every character is white space. */
  lemma {:induction false} TrimEmptyIffBlank(s: string)
    ensures Trim(s) == [] <==> AllSpace(s)
  {
    var t := TrimStart(s);
    var r := TrimEnd(t);
    assert t != [] ==> t[0] == s[|s| - |t|];
    assert s[..|s|] == s;
    assert r != [] ==> r[|r| - 1] == t[|r| - 1];
    assert t[0..] == t;
  }

  // ---------------------------------------------------------------------------
  // includes, startsWith, indexOf

  /** `pat` occurs in `s` at position `k`. */
  predicate OccursAt(s: string, pat: string, k: int) {
    0 <= k && k + |pat| <= |s| && s[k..k + |pat|] == pat
  }

  /** `String.prototype.includes`. */
  predicate Includes(s: string, pat: string) {
    exists k :: 0 <= k <= |s| && OccursAt(s, pat, k)
  }

  /** `String.prototype.startsWith`. */
  predicate StartsWith(s: string, prefix: string) {
    |prefix| <= |s| && s[..|prefix|] == prefix
  }

  /** The first position at or after `from` where `pat` occurs. */
  function IndexOfFrom(s: string, pat: string, from: nat): (r: Option<nat>)
    ensures r.Some? ==> from <= r.value && OccursAt(s, pat, r.value)
    ensures r.Some? ==> forall k :: from <= k < r.value ==> !OccursAt(s, pat, k)
    ensures r.None? ==> forall k :: from <= k ==> !OccursAt(s, pat, k)
    decreases |s| - from
  {
    if from + |pat| > |s| then None
    else if s[from..from + |pat|] == pat then Some(from)
    else IndexOfFrom(s, pat, from + 1)
  }

  /** `String.prototype.indexOf`, with `None` for -1: the first occurrence, found iff `pat` is included. */
  function IndexOf(s: string, pat: string): (r: Option<nat>)
    ensures r.Some? <==> Includes(s, pat)
    ensures r.Some? ==> OccursAt(s, pat, r.value) && forall k :: 0 <= k < r.value ==> !OccursAt(s, pat, k)
  {
    IndexOfFrom(s, pat, 0)
  }

  /** `s.replace(pat, rep)` with a string pattern: only the first occurrence is replaced. */
  function ReplaceFirst(s: string, pat: string, rep: string): (r: string)
    ensures !Includes(s, pat) ==> r == s
    ensures Includes(s, pat) ==> exists k :: OccursAt(s, pat, k) && r == s[..k] + rep + s[k + |pat|..] &&
                                            forall k' :: 0 <= k' < k ==> !OccursAt(s, pat, k')
  {
    match IndexOf(s, pat)
    case None => s
    case Some(k) => s[..k] + rep + s[k + |pat|..]
  }

  // ---------------------------------------------------------------------------
  // split and join

  /** The first position of `c` in `s`, or `None` when `c` does not occur. */
  function IndexOfChar(s: string, c: char): (r: Option<nat>)
    ensures r.Some? ==> r.value < |s| && s[r.value] == c
    ensures r.Some? ==> forall j :: 0 <= j < r.value ==> s[j] != c
    ensures r.None? ==> forall j :: 0 <= j < |s| ==> s[j] != c
    decreases |s|
  {
    if s == [] then None
    else if s[0] == c then Some(0)
    else match IndexOfChar(s[1..], c)
      case None => None
      case Some(i) => Some(i + 1)
  }

  /** Joins `parts` with one `sep` between neighbours (`Array.prototype.join`). */
  function Join(parts: seq<string>, sep: char): string
    decreases |parts|
  {
    if |parts| == 0 then ""
    else if |parts| == 1 then parts[0]
    else parts[0] + [sep] + Join(parts[1..], sep)
  }

  /**
   * `String.prototype.split` with a one-character separator: the parts between
   * consecutive separators, at least one.
   */
  function Split(s: string, sep: char): (parts: seq<string>)
    ensures |parts| >= 1
    decreases |s|
  {
    match IndexOfChar(s, sep)
    case None => [s]
    case Some(i) => [s[..i]] + Split(s[i + 1..], sep)
  }

  /** No part of a split contains the separator. */
  lemma {:induction false} SplitPartsSeparatorFree(s: string, sep: char)
    ensures forall k :: 0 <= k < |Split(s, sep)| ==> sep !in Split(s, sep)[k]
    decreases |s|
  {
    match IndexOfChar(s, sep)
    case None =>
    case Some(i) =>
      var rest := Split(s[i + 1..], sep);
      SplitPartsSeparatorFree(s[i + 1..], sep);
      assert Split(s, sep) == [s[..i]] + rest;
      assert forall k :: 1 <= k < |rest| + 1 ==> ([s[..i]] + rest)[k] == rest[k - 1];
  }

  /** Joining the parts of a split with the same separator gives back the string. */
  lemma {:induction false} JoinSplit(s: string, sep: char)
    ensures Join(Split(s, sep), sep) == s
    decreases |s|
  {
    match IndexOfChar(s, sep)
    case None =>
    case Some(i) =>
      var rest := Split(s[i + 1..], sep);
      JoinSplit(s[i + 1..], sep);
      assert Split(s, sep) == [s[..i]] + rest;
      assert ([s[..i]] + rest)[1..] == rest;
      assert s == s[..i] + [sep] + s[i + 1..];
  }

  /** The first separator of `p + sep + t`, when `p` holds none, is the one after `p`. */
  lemma IndexAfterPrefix(p: string, sep: char, t: string)
    requires sep !in p
    ensures IndexOfChar(p + [sep] + t, sep) == Some(|p|)
  {
    var s := p + [sep] + t;
    assert s[|p|] == sep;
    assert forall j :: 0 <= j < |p| ==> s[j] == p[j] != sep;
  }

  /** Splitting `p + sep + t` where `p` holds no separator yields `p` followed by the parts of `t`. */
  lemma SplitAtFirst(p: string, sep: char, t: string)
    requires sep !in p
    ensures Split(p + [sep] + t, sep) == [p] + Split(t, sep)
  {
    var s := p + [sep] + t;
    IndexAfterPrefix(p, sep, t);
    assert s[..|p|] == p;
    assert s[|p| + 1..] == t;
  }

  /** Splitting a join of separator-free parts recovers the parts. */
  lemma {:induction false} SplitJoin(parts: seq<string>, sep: char)
    requires |parts| >= 1
    requires forall k :: 0 <= k < |parts| ==> sep !in parts[k]
    ensures Split(Join(parts, sep), sep) == parts
    decreases |parts|
  {
    if |parts| > 1 {
      SplitAtFirst(parts[0], sep, Join(parts[1..], sep));
      SplitJoin(parts[1..], sep);
      assert parts == [parts[0]] + parts[1..];
    } else {
      assert forall j :: 0 <= j < |parts[0]| ==> parts[0][j] != sep;
    }
  }

  /** The first part of a split is the prefix of `s` before the first separator (all of `s` if there is none). */
  lemma FirstPart(s: string, sep: char)
    ensures var f := Split(s, sep)[0];
      StartsWith(s, f) && sep !in f && (f == s || s[|f|] == sep)
  {
    match IndexOfChar(s, sep)
    case None =>
    case Some(i) =>
      assert Split(s, sep)[0] == s[..i];
  }

  /** The first separator of `s` stays the first one when text is appended to `s`. */
  lemma IndexOfCharExtends(s: string, t: string, sep: char, i: nat)
    requires IndexOfChar(s, sep) == Some(i)
    ensures IndexOfChar(s + t, sep) == Some(i)
  {
    var u := s + t;
    assert u[i] == sep;
    assert forall j :: 0 <= j < i ==> u[j] == s[j];
  }

  /** Appending a separator and a separator-free `ext` to `s` appends `ext` to the parts of `s`. */
  lemma {:induction false} SplitAppendsPart(s: string, sep: char, ext: string)
    requires sep !in ext
    ensures Split(s + [sep] + ext, sep) == Split(s, sep) + [ext]
    decreases |s|
  {
    match IndexOfChar(s, sep)
    case None =>
      SplitAppendsToWhole(s, sep, ext);
    case Some(i) =>
      SplitAppendsPart(s[i + 1..], sep, ext);
      SplitAppendsStep(s, sep, ext, i);
  }

  /** With no separator in `s`, the parts of `s + sep + ext` are `s` and `ext`. */
  lemma SplitAppendsToWhole(s: string, sep: char, ext: string)
    requires IndexOfChar(s, sep) == None && sep !in ext
    ensures Split(s + [sep] + ext, sep) == Split(s, sep) + [ext]
  {
    assert sep !in s;
    SplitAtFirst(s, sep, ext);
    assert Split(ext, sep) == [ext] by {
      assert forall j :: 0 <= j < |ext| ==> ext[j] != sep;
    }
  }

  /** Past the first separator of `s`, appending `sep + ext` to `s` appends it to the rest. */
  lemma SplitAppendsStep(s: string, sep: char, ext: string, i: nat)
    requires IndexOfChar(s, sep) == Some(i)
    requires Split(s[i + 1..] + [sep] + ext, sep) == Split(s[i + 1..], sep) + [ext]
    ensures Split(s + [sep] + ext, sep) == Split(s, sep) + [ext]
  {
    var u := s + [sep] + ext;
    AppendAssociates(s, [sep], ext);
    AppendAssociates(s[i + 1..], [sep], ext);
    IndexOfCharExtends(s, [sep] + ext, sep, i);
    AppendAround(s, [sep] + ext, i);
    SplitUnfold(u, sep, i);
    SplitUnfold(s, sep, i);
    AppendAssociates([s[..i]], Split(s[i + 1..], sep), [ext]);
  }

  /** Text appended after position `i` of `s` leaves the prefix before `i` and extends the suffix after it. */
  lemma AppendAround(s: string, t: string, i: nat)
    requires i < |s|
    ensures (s + t)[..i] == s[..i] && (s + t)[i + 1..] == s[i + 1..] + t
  {
    assert (s + t)[i + 1..] == s[i + 1..] + t;
  }

  /** Concatenation associates. */
  lemma AppendAssociates<T>(a: seq<T>, b: seq<T>, c: seq<T>)
    ensures a + (b + c) == (a + b) + c
  {
  }

  /** A split at its first separator `i`: the text before it, then the parts of the text after it. */
  lemma SplitUnfold(s: string, sep: char, i: nat)
    requires IndexOfChar(s, sep) == Some(i)
    ensures i < |s| && Split(s, sep) == [s[..i]] + Split(s[i + 1..], sep)
  {
  }

  /** The last part of `stem + sep + ext` is `ext` when `ext` holds no separator. */
  lemma LastPartAfterSeparator(stem: string, sep: char, ext: string)
    requires sep !in ext
    ensures var parts := Split(stem + [sep] + ext, sep); parts[|parts| - 1] == ext
  {
    SplitAppendsPart(stem, sep, ext);
  }

  // ---------------------------------------------------------------------------
  // case and digits

  function LowerChar(c: char): char {
    if 'A' <= c <= 'Z' then (c as int + 32) as char else c
  }

  /** `String.prototype.toLowerCase` on the ASCII letters. */
  function Lower(s: string): (r: string)
    ensures |r| == |s|
    ensures forall i :: 0 <= i < |s| ==> r[i] == LowerChar(s[i])
  {
    seq(|s|, i requires 0 <= i < |s| => LowerChar(s[i]))
  }

  predicate IsDigit(c: char) {
    '0' <= c <= '9'
  }

  predicate AllDigits(s: string) {
    forall i :: 0 <= i < |s| ==> IsDigit(s[i])
  }

  function DigitChar(d: nat): char
    requires d < 10
  {
    ('0' as int + d) as char
  }

  /** The decimal numeral of `n`, as `Number.prototype.toString` writes it. */
  function NatToString(n: nat): (r: string)
    ensures |r| >= 1 && AllDigits(r)
    ensures n < 10 <==> |r| == 1
    ensures |r| == 1 || r[0] != '0'
  {
    if n < 10 then [DigitChar(n)] else NatToString(n / 10) + [DigitChar(n % 10)]
  }

  /** The decimal numeral of an integer, with a leading '-' when it is negative. */
  function IntToString(n: int): string {
    if n < 0 then "-" + NatToString(-n) else NatToString(n)
  }

  /** The value of a string of decimal digits. */
  function ParseNat(s: string): nat
    requires AllDigits(s)
  {
    if s == [] then 0 else 10 * ParseNat(s[..|s| - 1]) + (s[|s| - 1] as int - '0' as int)
  }

  /** Reading back a rendered numeral gives the number. */
  lemma {:induction false} ParseNatToString(n: nat)
    ensures ParseNat(NatToString(n)) == n
  {
    if n >= 10 {
      var r := NatToString(n);
      assert r[..|r| - 1] == NatToString(n / 10);
      ParseNatToString(n / 10);
    }
  }
}
