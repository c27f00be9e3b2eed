/** The `java.lang.String` and `java.lang.Integer` operations that the assembler's global
    state relies on, with the behaviour the JDK documents for them. */
module JavaStrings {
  import opened JavaLang

  // ---------------------------------------------------------------------------
  // String.replace(char, char)
  // ---------------------------------------------------------------------------

  /** `s.replace(from, to)`: every occurrence of `from` becomes `to`, nothing else moves. */
  function ReplaceChar(s: string, from: char, to: char): (r: string)
    ensures |r| == |s|
    ensures forall i :: 0 <= i < |s| ==> r[i] == (if s[i] == from then to else s[i])
  {
    if s == [] then [] else [if s[0] == from then to else s[0]] + ReplaceChar(s[1..], from, to)
  }

  /** After the replacement no `from` is left. */
  lemma ReplaceCharRemovesAll(s: string, from: char, to: char)
    requires from != to
    ensures from !in ReplaceChar(s, from, to)
  {
  }

  /** When `to` did not occur in `s`, replacing back restores `s`. */
  lemma ReplaceCharUndo(s: string, from: char, to: char)
    requires to !in s
    ensures ReplaceChar(ReplaceChar(s, from, to), to, from) == s
  {
  }

  // ---------------------------------------------------------------------------
  // String.endsWith and a stream filter on it
  // ---------------------------------------------------------------------------

  predicate EndsWith(s: string, suffix: string) {
    |suffix| <= |s| && s[|s| - |suffix|..] == suffix
  }

  /** `names.stream().filter(n -> n.endsWith(suffix))`: exactly the names with the suffix,
      each as often as it was listed. */
  function FilterEndsWith(names: seq<string>, suffix: string): (r: seq<string>)
    ensures forall i :: 0 <= i < |r| ==> EndsWith(r[i], suffix)
    ensures forall x :: multiset(r)[x] == if EndsWith(x, suffix) then multiset(names)[x] else 0
  {
    if names == [] then []
    else
      assert names == [names[0]] + names[1..];
      (if EndsWith(names[0], suffix) then [names[0]] else []) + FilterEndsWith(names[1..], suffix)
  }

  // ---------------------------------------------------------------------------
  // String.join and splitting on a single separator character
  // ---------------------------------------------------------------------------

  /** `String.join(String.valueOf(sep), parts)`: the parts in order, one separator between
      each two neighbours, so the result is one character longer per separator. */
  function Join(parts: seq<string>, sep: char): (r: string)
    ensures |parts| >= 1 ==> parts[0] <= r
    ensures |parts| >= 1 ==> |r| == |Concat(parts)| + |parts| - 1
  {
    if |parts| == 0 then ""
    else if |parts| == 1 then parts[0]
    else parts[0] + [sep] + Join(parts[1..], sep)
  }

  /** The first position of `c` in `s`, or `|s|` when there is none. */
  function IndexOf(s: string, c: char): (i: nat)
    ensures i <= |s|
    ensures i < |s| ==> s[i] == c
    ensures c !in s[..i]
  {
    if s == [] || s[0] == c then 0 else 1 + IndexOf(s[1..], c)
  }

  /** The entries of a separated list: the pieces between consecutive occurrences of `c`
      (the reading of a class path by the JVM). */
  function SplitOn(s: string, c: char): (r: seq<string>)
    ensures |r| >= 1
    ensures forall i :: 0 <= i < |r| ==> c !in r[i]
    decreases |s|
  {
    var i := IndexOf(s, c);
    if i == |s| then [s] else [s[..i]] + SplitOn(s[i + 1..], c)
  }

  /** A string that does not hold the separator is a single entry. */
  lemma SplitOnSingle(a: string, c: char)
    requires c !in a
    ensures SplitOn(a, c) == [a]
  {
  }

  /** An entry free of the separator, then the separator: the first entry is that entry. */
  lemma SplitOnCons(a: string, t: string, c: char)
    requires c !in a
    ensures SplitOn(a + [c] + t, c) == [a] + SplitOn(t, c)
  {
    var s := a + [c] + t;
    var i := IndexOf(s, c);
    assert s[|a|] == c;
    assert s[..|a|] == a;
    assert s[|a| + 1..] == t;
  }

  /** Two leading entries come off the same way, one after the other. */
  lemma SplitOnCons2(a: string, b: string, t: string, c: char)
    requires c !in a && c !in b
    ensures SplitOn(a + [c] + (b + [c] + t), c) == [a, b] + SplitOn(t, c)
  {
    SplitOnCons(a, b + [c] + t, c);
    SplitOnCons(b, t, c);
    assert [a] + ([b] + SplitOn(t, c)) == [a, b] + SplitOn(t, c);
  }

  /** Splitting a joined list gives back the list, when no entry holds the separator. */
  lemma {:induction false} SplitOnJoin(parts: seq<string>, c: char)
    requires |parts| >= 1
    requires forall i :: 0 <= i < |parts| ==> c !in parts[i]
    ensures SplitOn(Join(parts, c), c) == parts
  {
    if |parts| == 1 {
      SplitOnSingle(parts[0], c);
    } else {
      SplitOnCons(parts[0], Join(parts[1..], c), c);
      SplitOnJoin(parts[1..], c);
      assert parts == [parts[0]] + parts[1..];
    }
  }

  /** Joining the entries of a string gives back the string. */
  lemma {:induction false} JoinSplitOn(s: string, c: char)
    ensures Join(SplitOn(s, c), c) == s
    decreases |s|
  {
    var i := IndexOf(s, c);
    if i < |s| {
      var rest := SplitOn(s[i + 1..], c);
      JoinSplitOn(s[i + 1..], c);
      var r := [s[..i]] + rest;
      assert r[1..] == rest;
      assert Join(r, c) == s[..i] + [c] + s[i + 1..];
      assert s == s[..i] + [c] + s[i + 1..];
    }
  }

  // ---------------------------------------------------------------------------
  // String.split("\\s+")
  // ---------------------------------------------------------------------------

  /** A character of the regular-expression class `\s`: space, tab, newline, vertical tab,
      form feed or carriage return. */
  predicate IsWhitespace(ch: char) {
    ch == ' ' || ch == '\t' || ch == '\n' || ch == '\U{B}' || ch == '\U{C}' || ch == '\r'
  }

  predicate NoWhitespace(s: string) {
    forall i :: 0 <= i < |s| ==> !IsWhitespace(s[i])
  }

  /** Length of the longest prefix of `s` without whitespace. */
  function NonWhitespacePrefix(s: string): (n: nat)
    ensures n <= |s|
    ensures NoWhitespace(s[..n])
    ensures n < |s| ==> IsWhitespace(s[n])
  {
    if s == [] || IsWhitespace(s[0]) then 0
    else
      var n := 1 + NonWhitespacePrefix(s[1..]);
      assert s[..n] == [s[0]] + s[1..][..n - 1];
      n
  }

  /** Length of the longest prefix of `s` made only of whitespace. */
  function WhitespacePrefix(s: string): (n: nat)
    ensures n <= |s|
    ensures forall i :: 0 <= i < n ==> IsWhitespace(s[i])
    ensures n < |s| ==> !IsWhitespace(s[n])
  {
    if s == [] || !IsWhitespace(s[0]) then 0 else 1 + WhitespacePrefix(s[1..])
  }

  /** The pieces of `s` between its maximal runs of whitespace, in order: what the matcher
      loop of `String.split` collects before trailing empty strings are removed. A leading
      run yields an empty first piece and a trailing run an empty last piece. Defined one
      character at a time: a non-whitespace character joins the first piece of the rest, and
      a whitespace character opens a new, empty piece unless the next character continues
      its run. `FieldsStep` states the same thing run by run. */
  function Fields(s: string): (r: seq<string>)
    ensures |r| >= 1
  {
    if s == [] then [""]
    else
      var rest := Fields(s[1..]);
      if !IsWhitespace(s[0]) then [[s[0]] + rest[0]] + rest[1..]
      else if |s| > 1 && IsWhitespace(s[1]) then rest
      else [""] + rest
  }

  /** Removes the empty strings at the end of a list (the last step of `String.split` with
      limit zero). */
  function DropTrailingEmpty(parts: seq<string>): (r: seq<string>)
    ensures r <= parts
    ensures r == [] || r[|r| - 1] != ""
    ensures forall i :: |r| <= i < |parts| ==> parts[i] == ""
  {
    if parts == [] || parts[|parts| - 1] != "" then parts
    else DropTrailingEmpty(parts[..|parts| - 1])
  }

  /** `s.split("\\s+")`: when the pattern never matches the result is `[s]` (so `""` gives
      `[""]`); otherwise the fields between whitespace runs, trailing empty ones removed. */
  function SplitWhitespace(s: string): (r: seq<string>)
    ensures r == [s] <==> NoWhitespace(s)
  {
    if NoWhitespace(s) then [s]
    else
      FieldsNoWhitespace(s);
      DropTrailingEmpty(Fields(s))
  }

  /** The concatenation of a list of strings. */
  function Concat(parts: seq<string>): string
  {
    if parts == [] then "" else parts[0] + Concat(parts[1..])
  }

  /** `s` with every whitespace character deleted. */
  function RemoveWhitespace(s: string): string
  {
    if s == [] then "" else (if IsWhitespace(s[0]) then "" else [s[0]]) + RemoveWhitespace(s[1..])
  }

  lemma {:induction false} ConcatAppend(p: seq<string>, q: seq<string>)
    ensures Concat(p + q) == Concat(p) + Concat(q)
  {
    if p == [] {
      assert p + q == q;
    } else {
      assert (p + q)[1..] == p[1..] + q;
      ConcatAppend(p[1..], q);
    }
  }

  lemma {:induction false} RemoveWhitespaceOfNone(a: string)
    requires NoWhitespace(a)
    ensures RemoveWhitespace(a) == a
  {
    if a != [] {
      RemoveWhitespaceOfNone(a[1..]);
    }
  }

  /** A whitespace-free string is its own single field. */
  lemma FieldsOfNoWhitespace(s: string)
    requires NoWhitespace(s)
    ensures Fields(s) == [s]
  {
    assert s[..|s|] == s;
    FieldsOfWord(s, |s|);
    assert s[|s|..] == [];
    assert Fields(s[|s|..]) == [""];
    assert s + "" == s;
    var f := Fields(s);
    assert f == [f[0]] + f[1..];
  }

  /** A whitespace-free prefix of length `k` is glued to the first piece of what follows it. */
  lemma {:induction false} FieldsOfWord(s: string, k: nat)
    requires k <= |s| && NoWhitespace(s[..k])
    ensures Fields(s)[0] == s[..k] + Fields(s[k..])[0]
    ensures Fields(s)[1..] == Fields(s[k..])[1..]
    decreases k
  {
    if k == 0 {
      assert s[..0] + Fields(s)[0] == Fields(s)[0];
      assert s[0..] == s;
    } else {
      assert s[..k][0] == s[0];
      assert s[1..][..k - 1] == s[..k][1..];
      FieldsOfWord(s[1..], k - 1);
      assert s[1..][k - 1..] == s[k..];
      FieldsOfLetter(s);
      var w, t := s[1..][..k - 1], Fields(s[k..])[0];
      assert Fields(s)[0] == [s[0]] + (w + t);
      assert [s[0]] + (w + t) == ([s[0]] + w) + t;
      assert [s[0]] + w == s[..k];
    }
  }

  lemma FieldsOfLetter(s: string)
    requires s != [] && !IsWhitespace(s[0])
    ensures Fields(s)[0] == [s[0]] + Fields(s[1..])[0]
    ensures Fields(s)[1..] == Fields(s[1..])[1..]
  {
    var r := Fields(s[1..]);
    assert Fields(s) == [[s[0]] + r[0]] + r[1..];
  }

  /** A run of `w` whitespace characters that the next character does not continue opens one
      empty piece. */
  lemma {:induction false} FieldsOfRun(s: string, w: nat)
    requires 0 < w <= |s|
    requires forall i :: 0 <= i < w ==> IsWhitespace(s[i])
    requires w < |s| ==> !IsWhitespace(s[w])
    ensures Fields(s) == [""] + Fields(s[w..])
    decreases w
  {
    if w > 1 {
      FieldsOfRun(s[1..], w - 1);
      assert s[1..][w - 1..] == s[w..];
    }
  }

  lemma NonWhitespacePrefixWhole(s: string)
    ensures NonWhitespacePrefix(s) == |s| ==> NoWhitespace(s)
  {
    assert s[..|s|] == s;
  }

  /** One step of `Fields`: the first piece is whitespace-free, a non-empty run of
      whitespace follows, and the rest starts with a non-whitespace character or is empty. */
  lemma FieldsStep(s: string) returns (k: nat, j: nat)
    requires !NoWhitespace(s)
    ensures k == NonWhitespacePrefix(s) && j == k + WhitespacePrefix(s[k..])
    ensures k < j <= |s|
    ensures Fields(s) == [s[..k]] + Fields(s[j..])
    ensures NoWhitespace(s[..k])
    ensures forall i :: k <= i < j ==> IsWhitespace(s[i])
    ensures j < |s| ==> !IsWhitespace(s[j])
  {
    k := NonWhitespacePrefix(s);
    NonWhitespacePrefixWhole(s);
    j := WhitespaceRunEnd(s, k);
    FieldsOfWord(s, k);
    FieldsOfRun(s[k..], j - k);
    assert s[k..][j - k..] == s[j..];
    var g := Fields(s[j..]);
    assert Fields(s[k..]) == [""] + g;
    assert ([""] + g)[1..] == g;
    assert s[..k] + "" == s[..k];
    var f := Fields(s);
    assert f == [f[0]] + f[1..];
  }

  /** Where the run of whitespace starting at `k` ends. */
  lemma WhitespaceRunEnd(s: string, k: nat) returns (j: nat)
    requires k < |s| && IsWhitespace(s[k])
    ensures j == k + WhitespacePrefix(s[k..])
    ensures k < j <= |s|
    ensures forall i :: k <= i < j ==> IsWhitespace(s[i])
    ensures j < |s| ==> !IsWhitespace(s[j])
  {
    var rest := s[k..];
    var w := WhitespacePrefix(rest);
    j := k + w;
    assert rest[0] == s[k];
    forall i | k <= i < j ensures IsWhitespace(s[i]) {
      assert s[i] == rest[i - k];
    }
    if j < |s| {
      assert s[j] == rest[w];
    }
  }

  /** No field holds whitespace. */
  lemma {:induction false} FieldsNoWhitespace(s: string)
    ensures forall i :: 0 <= i < |Fields(s)| ==> NoWhitespace(Fields(s)[i])
    decreases |s|
  {
    if NoWhitespace(s) {
      FieldsOfNoWhitespace(s);
    } else {
      var k, j := FieldsStep(s);
      FieldsNoWhitespace(s[j..]);
    }
  }

  /** The first field is empty exactly when `s` is empty or starts with whitespace. */
  lemma FieldsFirst(s: string)
    ensures Fields(s)[0] == "" <==> s == "" || IsWhitespace(s[0])
  {
    if NoWhitespace(s) {
      FieldsOfNoWhitespace(s);
    } else {
      var k, j := FieldsStep(s);
      assert k > 0 ==> s[..k][0] == s[0];
    }
  }

  /** Only the first and the last field may be empty. */
  lemma {:induction false} FieldsMiddle(s: string)
    ensures forall i :: 0 < i < |Fields(s)| - 1 ==> Fields(s)[i] != ""
    decreases |s|
  {
    if NoWhitespace(s) {
      FieldsOfNoWhitespace(s);
    } else {
      var k, j := FieldsStep(s);
      var t := s[j..];
      FieldsMiddle(t);
      FieldsFirst(t);
      assert t != [] ==> t[0] == s[j];
      assert Fields(s)[1..] == Fields(t);
    }
  }

  /** Deleting whitespace keeps a whitespace-free prefix as it is. */
  lemma {:induction false} RemoveWhitespaceOfWord(s: string, k: nat)
    requires k <= |s| && NoWhitespace(s[..k])
    ensures RemoveWhitespace(s) == s[..k] + RemoveWhitespace(s[k..])
    decreases k
  {
    if k == 0 {
      assert s[..0] + RemoveWhitespace(s) == RemoveWhitespace(s);
      assert s[0..] == s;
    } else {
      assert s[..k][0] == s[0];
      assert s[1..][..k - 1] == s[..k][1..];
      RemoveWhitespaceOfWord(s[1..], k - 1);
      assert s[1..][k - 1..] == s[k..];
      var w, t := s[1..][..k - 1], RemoveWhitespace(s[k..]);
      assert RemoveWhitespace(s) == [s[0]] + (w + t);
      assert [s[0]] + (w + t) == ([s[0]] + w) + t;
      assert [s[0]] + w == s[..k];
    }
  }

  /** Deleting whitespace drops a leading run of whitespace. */
  lemma {:induction false} RemoveWhitespaceOfRun(s: string, w: nat)
    requires w <= |s|
    requires forall i :: 0 <= i < w ==> IsWhitespace(s[i])
    ensures RemoveWhitespace(s) == RemoveWhitespace(s[w..])
    decreases w
  {
    if w == 0 {
      assert s[0..] == s;
    } else {
      RemoveWhitespaceOfRun(s[1..], w - 1);
      assert s[1..][w - 1..] == s[w..];
    }
  }

  /** Together the fields hold every non-whitespace character of `s`, in order. */
  lemma {:induction false} FieldsConcat(s: string)
    ensures Concat(Fields(s)) == RemoveWhitespace(s)
    decreases |s|
  {
    if NoWhitespace(s) {
      RemoveWhitespaceOfNone(s);
      FieldsOfNoWhitespace(s);
      assert Concat([s]) == s + Concat([]);
    } else {
      var k, j := FieldsStep(s);
      FieldsConcat(s[j..]);
      var f := [s[..k]] + Fields(s[j..]);
      assert f[1..] == Fields(s[j..]);
      assert Concat(f) == s[..k] + Concat(Fields(s[j..]));
      RemoveWhitespaceOfWord(s, k);
      RemoveWhitespaceOfRun(s[k..], j - k);
      assert s[k..][j - k..] == s[j..];
    }
  }

  /** The options `s.split("\\s+")` yields are whitespace-free and none is empty except
      possibly the first. */
  lemma SplitWhitespaceTokens(s: string)
    ensures forall i :: 0 <= i < |SplitWhitespace(s)| ==> NoWhitespace(SplitWhitespace(s)[i])
    ensures forall i :: 0 < i < |SplitWhitespace(s)| ==> SplitWhitespace(s)[i] != ""
  {
    if !NoWhitespace(s) {
      var f := Fields(s);
      FieldsNoWhitespace(s);
      FieldsMiddle(s);
      var r := DropTrailingEmpty(f);
      forall i | 0 <= i < |r|
        ensures NoWhitespace(r[i]) && (i > 0 ==> r[i] != "")
      {
        assert r[i] == f[i];
        assert i == |f| - 1 ==> i == |r| - 1;
      }
    }
  }

  /** Together the options hold every non-whitespace character of `s`, in order. */
  lemma SplitWhitespaceConcat(s: string)
    ensures Concat(SplitWhitespace(s)) == RemoveWhitespace(s)
  {
    if NoWhitespace(s) {
      RemoveWhitespaceOfNone(s);
      assert Concat([s]) == s + Concat([]);
    } else {
      FieldsConcat(s);
      DropTrailingEmptyConcat(Fields(s));
    }
  }

  /** Dropping trailing empty strings does not change the concatenation. */
  lemma {:induction false} DropTrailingEmptyConcat(parts: seq<string>)
    ensures Concat(DropTrailingEmpty(parts)) == Concat(parts)
    decreases |parts|
  {
    if parts != [] && parts[|parts| - 1] == "" {
      var init := parts[..|parts| - 1];
      assert parts == init + [""];
      ConcatAppend(init, [""]);
      assert Concat([""]) == "" + Concat([]);
      assert Concat(init) + "" == Concat(init);
      DropTrailingEmptyConcat(init);
    }
  }

  /** A list whose last string is non-empty has a non-empty concatenation. */
  lemma ConcatLastNonEmpty(p: seq<string>)
    requires p != [] && p[|p| - 1] != ""
    ensures Concat(p) != ""
  {
    var last := p[|p| - 1];
    assert p == p[..|p| - 1] + [last];
    ConcatAppend(p[..|p| - 1], [last]);
    assert Concat([last]) == last + Concat([]);
  }

  /** There are no options at all exactly when `s` is non-empty and all whitespace. */
  lemma SplitWhitespaceNone(s: string)
    ensures SplitWhitespace(s) == [] <==> s != "" && RemoveWhitespace(s) == ""
  {
    SplitWhitespaceConcat(s);
    if NoWhitespace(s) {
      RemoveWhitespaceOfNone(s);
    } else {
      var r := DropTrailingEmpty(Fields(s));
      if r != [] {
        ConcatLastNonEmpty(r);
      }
    }
  }

  /** The first option is empty exactly when `s` is empty, or starts with whitespace and
      holds some non-whitespace character (the leading empty string of `String.split`). */
  lemma SplitWhitespaceFirst(s: string)
    ensures |SplitWhitespace(s)| > 0 && SplitWhitespace(s)[0] == ""
        <==> s == "" || (IsWhitespace(s[0]) && RemoveWhitespace(s) != "")
  {
    SplitWhitespaceNone(s);
    if !NoWhitespace(s) {
      FieldsFirst(s);
      var f := Fields(s);
      var r := DropTrailingEmpty(f);
      assert r != [] ==> r[0] == f[0];
    }
  }

  /** The first field of a non-empty whitespace-free piece followed by a single space and
      text that starts with a non-whitespace character. */
  lemma FieldsCons(a: string, t: string)
    requires a != "" && NoWhitespace(a)
    requires t != "" && !IsWhitespace(t[0])
    ensures Fields(a + [' '] + t) == [a] + Fields(t)
  {
    var s := a + [' '] + t;
    assert s[..|a|] == a;
    FieldsOfWord(s, |a|);
    var rest := s[|a|..];
    assert rest == [' '] + t && rest[1..] == t;
    FieldsOfRun(rest, 1);
    assert a + "" == a;
  }

  /** A join whose first part is non-empty starts with the first character of that part. */
  lemma JoinStart(parts: seq<string>, c: char)
    requires |parts| >= 1 && parts[0] != ""
    ensures Join(parts, c) != "" && Join(parts, c)[0] == parts[0][0]
  {
  }

  /** Splitting options joined by single spaces gives the options back. */
  lemma {:induction false} FieldsJoin(opts: seq<string>)
    requires |opts| >= 1
    requires forall i :: 0 <= i < |opts| ==> opts[i] != "" && NoWhitespace(opts[i])
    ensures Fields(Join(opts, ' ')) == opts
  {
    if |opts| == 1 {
      assert Join(opts, ' ') == opts[0];
      FieldsOfNoWhitespace(opts[0]);
    } else {
      var rest := opts[1..];
      var t := Join(rest, ' ');
      assert Join(opts, ' ') == opts[0] + [' '] + t;
      JoinStart(rest, ' ');
      FieldsCons(opts[0], t);
      FieldsJoin(rest);
      assert opts == [opts[0]] + rest;
    }
  }

  /** `String.join(" ", opts).split("\\s+")` restores `opts` when every option is non-empty
      and whitespace-free. */
  lemma {:induction false} SplitWhitespaceJoin(opts: seq<string>)
    requires |opts| >= 1
    requires forall i :: 0 <= i < |opts| ==> opts[i] != "" && NoWhitespace(opts[i])
    ensures SplitWhitespace(Join(opts, ' ')) == opts
  {
    var s := Join(opts, ' ');
    FieldsJoin(opts);
    if NoWhitespace(s) {
      FieldsOfNoWhitespace(s);
    } else {
      assert opts[|opts| - 1] != "";
    }
  }

  // ---------------------------------------------------------------------------
  // Integer.parseInt and its inverse
  // ---------------------------------------------------------------------------

  const MIN_INT: int := -0x8000_0000
  const MAX_INT: int := 0x7FFF_FFFF

  predicate IsDigit(c: char) {
    '0' <= c <= '9'
  }

  predicate AllDigits(s: string) {
    forall i :: 0 <= i < |s| ==> IsDigit(s[i])
  }

  function DigitValue(c: char): (d: nat)
    requires IsDigit(c)
    ensures d < 10
  {
    c as int - '0' as int
  }

  function DigitChar(d: nat): (c: char)
    requires d < 10
    ensures IsDigit(c) && DigitValue(c) == d
  {
    ('0' as int + d) as char
  }

  /** The value of a string of decimal digits, most significant first. */
  function DecimalValue(digits: string): nat
    requires AllDigits(digits)
  {
    if digits == [] then 0
    else 10 * DecimalValue(digits[..|digits| - 1]) + DigitValue(digits[|digits| - 1])
  }

  /** `Integer.parseInt(s)`: an optional `-` or `+` sign, then one or more decimal digits,
      whose value must fit in a 32-bit signed `int`; anything else throws. */
  function ParseInt(s: string): (r: Result<int, NumberFormatException>)
    ensures r.Ok? ==> MIN_INT <= r.value <= MAX_INT
    ensures r.Err? ==> r.error == NumberFormatException(s)
  {
    var signed := s != [] && (s[0] == '-' || s[0] == '+');
    var digits := if signed then s[1..] else s;
    if digits == [] || !AllDigits(digits) then Err(NumberFormatException(s))
    else
      var magnitude: int := DecimalValue(digits);
      var v: int := if s[0] == '-' then -magnitude else magnitude;
      if MIN_INT <= v <= MAX_INT then Ok(v) else Err(NumberFormatException(s))
  }

  /** The decimal digits of `n` without leading zeros (`Integer.toString` of a non-negative
      number); reading them back gives `n`. */
  function DecimalString(n: nat): (s: string)
    ensures s != "" && AllDigits(s)
    ensures DecimalValue(s) == n
    ensures n > 0 ==> s[0] != '0'
    ensures |s| == 1 || s[0] != '0'
  {
    if n < 10 then [DigitChar(n)]
    else
      var s := DecimalString(n / 10) + [DigitChar(n % 10)];
      assert s[..|s| - 1] == DecimalString(n / 10);
      s
  }

  /** `Integer.parseInt(Integer.toString(n)) == n` for every 32-bit `n`. */
  lemma ParseIntDecimalString(n: int)
    requires MIN_INT <= n <= MAX_INT
    ensures ParseInt(if n < 0 then "-" + DecimalString(-n) else DecimalString(n)) == Ok(n)
  {
    if n < 0 {
      var s := "-" + DecimalString(-n);
      assert s[1..] == DecimalString(-n);
    }
  }

  /** `Integer.parseInt` succeeds only on an optional `+` or `-` followed by at least one
      decimal digit and nothing else: `""`, `"-"`, `" 30"` and `"3a"` all throw. */
  lemma ParseIntAcceptsOnlyDecimals(s: string)
    ensures ParseInt(s).Ok? ==>
      |s| >= 1 && (IsDigit(s[0]) || ((s[0] == '+' || s[0] == '-') && |s| >= 2)) &&
      forall i :: 1 <= i < |s| ==> IsDigit(s[i])
  {
    if ParseInt(s).Ok? && !IsDigit(s[0]) {
      forall i | 1 <= i < |s| ensures IsDigit(s[i]) {
        assert s[i] == s[1..][i - 1];
      }
    }
  }

  /** Leading zeros add nothing to the value of a string of digits. */
  lemma {:induction false} DecimalValueLeadingZeros(zeros: string, digits: string)
    requires forall i :: 0 <= i < |zeros| ==> zeros[i] == '0'
    requires AllDigits(digits)
    ensures AllDigits(zeros + digits) && DecimalValue(zeros + digits) == DecimalValue(digits)
    decreases |digits|
  {
    var s := zeros + digits;
    assert forall i :: 0 <= i < |s| ==> IsDigit(s[i]) by {
      forall i | 0 <= i < |s| ensures IsDigit(s[i]) {
        if i >= |zeros| {
          assert s[i] == digits[i - |zeros|];
        }
      }
    }
    if digits == [] {
      assert s == zeros;
      DecimalValueOfZeros(zeros);
    } else {
      var init := digits[..|digits| - 1];
      assert s[..|s| - 1] == zeros + init;
      assert s[|s| - 1] == digits[|digits| - 1];
      DecimalValueLeadingZeros(zeros, init);
    }
  }

  lemma {:induction false} DecimalValueOfZeros(zeros: string)
    requires forall i :: 0 <= i < |zeros| ==> zeros[i] == '0'
    ensures AllDigits(zeros) && DecimalValue(zeros) == 0
  {
    if zeros != [] {
      DecimalValueOfZeros(zeros[..|zeros| - 1]);
    }
  }

  /** A sign (none, `+` or `-`), any number of zeros and a string of digits parse to the
      digits' value, negated after `-`, whenever that is a 32-bit value: `"+30"` and `"030"`
      both give 30, as `DecimalString(30)` is `"30"`. */
  lemma ParseIntPadded(sign: string, zeros: string, digits: string)
    requires |sign| <= 1 && forall i :: 0 <= i < |sign| ==> sign[i] == '+' || sign[i] == '-'
    requires forall i :: 0 <= i < |zeros| ==> zeros[i] == '0'
    requires digits != [] && AllDigits(digits)
    requires if sign == ['-'] then MIN_INT <= -(DecimalValue(digits) as int) else DecimalValue(digits) <= MAX_INT
    ensures ParseInt(sign + zeros + digits)
         == Ok(if sign == ['-'] then -(DecimalValue(digits) as int) else DecimalValue(digits))
  {
    var padded := zeros + digits;
    DecimalValueLeadingZeros(zeros, digits);
    assert sign + zeros + digits == sign + padded;
    ParseIntSigned(sign, padded);
  }

  /** A well-formed number whose value does not fit in 32 bits throws: `"2147483648"` and
      `"-2147483649"` are both rejected rather than clamped or wrapped. */
  lemma ParseIntOutOfRange(sign: string, digits: string)
    requires |sign| <= 1 && forall i :: 0 <= i < |sign| ==> sign[i] == '+' || sign[i] == '-'
    requires digits != [] && AllDigits(digits)
    requires if sign == ['-'] then -(DecimalValue(digits) as int) < MIN_INT else DecimalValue(digits) > MAX_INT
    ensures ParseInt(sign + digits) == Err(NumberFormatException(sign + digits))
  {
    var s := sign + digits;
    if sign == [] {
      assert s == digits;
      assert IsDigit(s[0]);
    } else {
      assert s[0] == sign[0];
      assert s[1..] == digits;
    }
  }

  /** An optional sign followed by digits parses to the digits' value, negated after `-`. */
  lemma ParseIntSigned(sign: string, digits: string)
    requires |sign| <= 1 && forall i :: 0 <= i < |sign| ==> sign[i] == '+' || sign[i] == '-'
    requires digits != [] && AllDigits(digits)
    requires if sign == ['-'] then MIN_INT <= -(DecimalValue(digits) as int) else DecimalValue(digits) <= MAX_INT
    ensures ParseInt(sign + digits) == Ok(if sign == ['-'] then -(DecimalValue(digits) as int) else DecimalValue(digits))
  {
    var s := sign + digits;
    if sign == [] {
      assert s == digits;
      assert IsDigit(s[0]);
    } else {
      assert s[0] == sign[0];
      assert s[1..] == digits;
    }
  }
}
