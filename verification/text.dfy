/** String operations the modelled code relies on, with the semantics of the
    library routine each one stands for (Rust `str`, JavaScript `String`). */
module Text {
  import opened Wrappers

  /** `pat` occurs in `s` starting at index `i`. */
  predicate OccursAt(s: string, pat: string, i: nat) {
    i + |pat| <= |s| && s[i..i + |pat|] == pat
  }

  /** First occurrence of `pat` in `s` at or after `from` (Rust `find`,
      JavaScript `indexOf`; an empty pattern is found at `from`). */
  function IndexOfFrom(s: string, pat: string, from: nat): (r: Option<nat>)
    ensures r.Some? ==> from <= r.value && OccursAt(s, pat, r.value)
    ensures r.Some? ==> forall j :: from <= j < r.value ==> !OccursAt(s, pat, j)
    ensures r.None? ==> forall j :: from <= j ==> !OccursAt(s, pat, j)
    decreases |s| - from
  {
    if from + |pat| > |s| then None
    else if s[from..from + |pat|] == pat then Some(from)
    else IndexOfFrom(s, pat, from + 1)
  }

  function IndexOf(s: string, pat: string): Option<nat> {
    IndexOfFrom(s, pat, 0)
  }

  predicate Contains(s: string, pat: string) {
    IndexOf(s, pat).Some?
  }

  /** An occurrence with none before it is the one `IndexOf` reports. */
  lemma FirstOccurrence(s: string, pat: string, i: nat)
    requires OccursAt(s, pat, i)
    requires forall j :: 0 <= j < i ==> !OccursAt(s, pat, j)
    ensures IndexOf(s, pat) == Some(i)
  {
  }

  /** Any occurrence makes `Contains` true. */
  lemma OccurrenceContains(s: string, pat: string, i: nat)
    requires OccursAt(s, pat, i)
    ensures Contains(s, pat)
  {
  }

  /** `pat` placed inside a longer string still occurs there. */
  lemma ContainsInContext(a: string, pat: string, b: string)
    ensures Contains(a + pat + b, pat)
  {
    assert (a + pat + b)[|a|..|a| + |pat|] == pat;
    OccurrenceContains(a + pat + b, pat, |a|);
  }

  /** An occurrence inside `s` is still one inside `a + s + b`. */
  lemma ContainsWithin(a: string, s: string, b: string, pat: string)
    requires Contains(s, pat)
    ensures Contains(a + s + b, pat)
  {
    var i := IndexOf(s, pat).value;
    var w := a + s + b;
    assert w[|a| + i..|a| + i + |pat|] == s[i..i + |pat|];
    OccurrenceContains(w, pat, |a| + i);
  }

  /** If one character of `pat` occurs neither in `a` nor earlier in `pat`,
      the first occurrence of `pat` in `a + pat` is the appended one. */
  lemma FirstOccurrenceByChar(a: string, pat: string, k: nat)
    requires k < |pat|
    requires pat[k] !in a && pat[k] !in pat[..k]
    ensures IndexOf(a + pat, pat) == Some(|a|)
  {
    var s := a + pat;
    assert s[|a|..] == pat;
    forall j | 0 <= j < |a| ensures !OccursAt(s, pat, j) {
      if j + k < |a| {
        assert s[j + k] == a[j + k];
      } else {
        assert s[j + k] == pat[j + k - |a|] == pat[..k][j + k - |a|];
      }
      assert s[j + k] != pat[k];
    }
    FirstOccurrence(s, pat, |a|);
  }

  /** A string lacking one of `pat`'s characters does not contain `pat`. */
  lemma AbsentByChar(s: string, pat: string, k: nat)
    requires k < |pat|
    requires pat[k] !in s
    ensures !Contains(s, pat)
  {
    forall i: nat | i + |pat| <= |s| ensures !OccursAt(s, pat, i) {
      assert s[i + k] in s;
      assert s[i..i + |pat|][k] == s[i + k];
    }
  }

  /** A string shorter than `pat` does not contain it. */
  lemma ShorterLacks(s: string, pat: string)
    requires |s| < |pat|
    ensures !Contains(s, pat)
  {
  }

  /** A character `pat` lacks cannot be inside an occurrence, so one in
      `a + [c] + b` would lie wholly in `a` or wholly in `b`. */
  lemma LacksAcrossChar(a: string, c: char, b: string, pat: string)
    requires c !in pat
    requires !Contains(a, pat) && !Contains(b, pat)
    ensures !Contains(a + [c] + b, pat)
  {
    var s := a + [c] + b;
    forall i: nat | i + |pat| <= |s| ensures !OccursAt(s, pat, i) {
      if i + |pat| <= |a| {
        assert s[i..i + |pat|] == a[i..i + |pat|];
        assert !OccursAt(a, pat, i);
      } else if i > |a| {
        assert s[i..i + |pat|] == b[i - |a| - 1..i - |a| - 1 + |pat|];
        assert !OccursAt(b, pat, i - |a| - 1);
      } else {
        assert s[i..i + |pat|][|a| - i] == c;
      }
    }
  }

  /** A prefix free of `pat`'s first character cannot start an occurrence. */
  lemma LacksAfterPrefix(a: string, b: string, pat: string)
    requires pat != [] && pat[0] !in a
    requires !Contains(b, pat)
    ensures !Contains(a + b, pat)
  {
    var s := a + b;
    forall i: nat | i + |pat| <= |s| ensures !OccursAt(s, pat, i) {
      if i < |a| {
        assert s[i..i + |pat|][0] == a[i];
      } else {
        assert s[i..i + |pat|] == b[i - |a|..i - |a| + |pat|];
        assert !OccursAt(b, pat, i - |a|);
      }
    }
  }

  /** After a string free of `pat` and a character `pat` lacks, the first
      occurrence of `pat` is the appended one. */
  lemma FirstAfterChar(x: string, c: char, pat: string)
    requires c !in pat
    requires !Contains(x, pat)
    ensures IndexOf(x + [c] + pat, pat) == Some(|x| + 1)
  {
    var s := x + [c] + pat;
    assert s[|x| + 1..|x| + 1 + |pat|] == pat;
    forall j | 0 <= j < |x| + 1 ensures !OccursAt(s, pat, j) {
      if j + |pat| <= |x| {
        assert s[j..j + |pat|] == x[j..j + |pat|];
        assert !OccursAt(x, pat, j);
      } else if j + |pat| <= |s| {
        assert s[j..j + |pat|][|x| - j] == c;
      }
    }
    FirstOccurrence(s, pat, |x| + 1);
  }

  /** Rust `str::split` with a non-empty separator: the pieces between
      leftmost non-overlapping occurrences; always at least one piece. */
  function SplitOn(s: string, sep: string): (r: seq<string>)
    requires sep != []
    ensures |r| >= 1
    decreases |s|
  {
    match IndexOf(s, sep)
    case None => [s]
    case Some(i) => [s[..i]] + SplitOn(s[i + |sep|..], sep)
  }

  /** When the separator first occurs right after `a`, `a` is the first piece. */
  lemma SplitOnFirst(a: string, sep: string, b: string)
    requires sep != []
    requires IndexOf(a + sep, sep) == Some(|a|)
    ensures SplitOn(a + sep + b, sep) == [a] + SplitOn(b, sep)
  {
    var s := a + sep + b;
    assert s[|a|..|a| + |sep|] == sep;
    forall j | 0 <= j < |a| ensures !OccursAt(s, sep, j) {
      assert !OccursAt(a + sep, sep, j);
      assert s[j..j + |sep|] == (a + sep)[j..j + |sep|];
    }
    FirstOccurrence(s, sep, |a|);
    assert s[..|a|] == a;
    assert s[|a| + |sep|..] == b;
  }

  /** A piece free of the separator character, followed by the separator,
      is split off as the first piece. */
  lemma SplitOnCharCons(a: string, c: char, b: string)
    requires c !in a
    ensures SplitOn(a + [c] + b, [c]) == [a] + SplitOn(b, [c])
  {
    var s := a + [c] + b;
    assert s[|a|..|a| + 1] == [c];
    forall j | 0 <= j < |a| ensures !OccursAt(s, [c], j) {
      assert s[j..j + 1] == [a[j]];
    }
    FirstOccurrence(s, [c], |a|);
    assert s[..|a|] == a;
    assert s[|a| + 1..] == b;
  }

  /** Removes one carriage return ending a line. */
  function StripCR(line: string): string {
    if |line| > 0 && line[|line| - 1] == '\r' then line[..|line| - 1] else line
  }

  /** Rust `str::lines`: split at `\n`, drop a `\r` that precedes the `\n`,
      and yield no empty line after a final `\n`. */
  function Lines(s: string): (r: seq<string>)
    ensures s == [] <==> r == []
    decreases |s|
  {
    if s == [] then []
    else
      match IndexOf(s, "\n")
      case None => [s]
      case Some(i) => [StripCR(s[..i])] + Lines(s[i + 1..])
  }

  /** A line free of `\n`, then `\n`, then the rest, is one line followed by
      the lines of the rest. */
  lemma LinesCons(a: string, b: string)
    requires '\n' !in a
    ensures Lines(a + "\n" + b) == [StripCR(a)] + Lines(b)
  {
    var s := a + "\n" + b;
    assert s[|a|..|a| + 1] == "\n";
    forall j | 0 <= j < |a| ensures !OccursAt(s, "\n", j) {
      assert s[j..j + 1] == [a[j]];
    }
    FirstOccurrence(s, "\n", |a|);
    assert s[..|a|] == a;
    assert s[|a| + 1..] == b;
  }

  /** Lines each followed by a newline. */
  function Terminated(ls: seq<string>): string {
    if ls == [] then "" else ls[0] + "\n" + Terminated(ls[1..])
  }

  /** A line that reads back as itself: no newline, no final carriage return. */
  predicate PlainLine(l: string) {
    '\n' !in l && (l == [] || l[|l| - 1] != '\r')
  }

  /** Newline-terminated plain lines read back as the same lines. */
  lemma {:induction false} LinesOfTerminated(ls: seq<string>)
    requires forall i :: 0 <= i < |ls| ==> PlainLine(ls[i])
    ensures Lines(Terminated(ls)) == ls
    decreases |ls|
  {
    if ls != [] {
      LinesOfTerminated(ls[1..]);
      LinesCons(ls[0], Terminated(ls[1..]));
    }
  }

  lemma {:induction false} TerminatedAppend(xs: seq<string>, ys: seq<string>)
    ensures Terminated(xs + ys) == Terminated(xs) + Terminated(ys)
    decreases |xs|
  {
    if xs == [] {
      assert xs + ys == ys;
    } else {
      assert (xs + ys)[0] == xs[0];
      assert (xs + ys)[1..] == xs[1..] + ys;
      TerminatedAppend(xs[1..], ys);
    }
  }

  /** Unicode White_Space, the set Rust's `char::is_whitespace` tests. */
  predicate IsWhitespace(c: char) {
    var n := c as int;
    (9 <= n <= 13) || n == 32 || n == 0x85 || n == 0xA0 || n == 0x1680
    || (0x2000 <= n <= 0x200A) || n == 0x2028 || n == 0x2029 || n == 0x202F
    || n == 0x205F || n == 0x3000
  }

  /** Rust `str::trim_start`. */
  function TrimStart(s: string): string {
    if s != [] && IsWhitespace(s[0]) then TrimStart(s[1..]) else s
  }

  /** Rust `str::trim_end`. */
  function TrimEnd(s: string): string {
    if s != [] && IsWhitespace(s[|s| - 1]) then TrimEnd(s[..|s| - 1]) else s
  }

  /** Rust `str::trim`: the string without leading and trailing whitespace. */
  function Trim(s: string): string {
    TrimEnd(TrimStart(s))
  }

  /** `TrimStart` drops a whitespace-only prefix and stops at the first
      other character. */
  lemma {:induction false} TrimStartDrops(s: string)
    ensures var r := TrimStart(s);
      && (r == [] || !IsWhitespace(r[0]))
      && |r| <= |s| && r == s[|s| - |r|..]
      && forall i :: 0 <= i < |s| - |r| ==> IsWhitespace(s[i])
    decreases |s|
  {
    if s != [] && IsWhitespace(s[0]) {
      TrimStartDrops(s[1..]);
    }
  }

  /** `TrimEnd` drops a whitespace-only suffix and stops at the last other
      character. */
  lemma {:induction false} TrimEndDrops(s: string)
    ensures var r := TrimEnd(s);
      && (r == [] || !IsWhitespace(r[|r| - 1]))
      && |r| <= |s| && r == s[..|r|]
      && forall i :: |r| <= i < |s| ==> IsWhitespace(s[i])
    decreases |s|
  {
    if s != [] && IsWhitespace(s[|s| - 1]) {
      TrimEndDrops(s[..|s| - 1]);
    }
  }

  /** A string trims to nothing exactly when it is all whitespace. */
  lemma TrimEmptyIffBlank(s: string)
    ensures Trim(s) == [] <==> forall i :: 0 <= i < |s| ==> IsWhitespace(s[i])
  {
    var t := TrimStart(s);
    TrimStartDrops(s);
    TrimEndDrops(t);
    if Trim(s) == [] {
      assert t == [];
    } else {
      var r := Trim(s);
      var k := |s| - |t|;
      assert s[k] == t[0] == r[0];
    }
  }

  /** A string that neither starts nor ends with whitespace trims to itself. */
  lemma TrimKeeps(s: string)
    requires s == [] || (!IsWhitespace(s[0]) && !IsWhitespace(s[|s| - 1]))
    ensures Trim(s) == s
  {
  }

  /** Leading whitespace does not survive the trim. */
  lemma TrimSkipsLeading(c: char, s: string)
    requires IsWhitespace(c)
    ensures Trim([c] + s) == Trim(s)
  {
    assert ([c] + s)[1..] == s;
  }

  /** Rust `str::trim_start_matches` with a non-empty pattern: removes the
      pattern from the front as many times as it is there. */
  function TrimStartMatches(s: string, pat: string): (r: string)
    requires pat != []
    ensures !(pat <= r)
    ensures |r| <= |s| && r == s[|s| - |r|..]
    decreases |s|
  {
    if pat <= s then TrimStartMatches(s[|pat|..], pat) else s
  }

  /** One leading copy of the pattern is stripped and the rest goes on. */
  lemma TrimStartMatchesStrips(pat: string, s: string)
    requires pat != []
    ensures TrimStartMatches(pat + s, pat) == TrimStartMatches(s, pat)
  {
    assert pat <= pat + s;
    assert (pat + s)[|pat|..] == s;
  }

  /** A string that does not start with the pattern is left alone. */
  lemma TrimStartMatchesStops(s: string, pat: string, k: nat)
    requires pat != []
    requires k < |pat| && k < |s| && s[k] != pat[k]
    ensures TrimStartMatches(s, pat) == s
  {
  }

  /** The strings of `xs` with `sep` between neighbours. */
  function Join(xs: seq<string>, sep: string): string
    decreases |xs|
  {
    if |xs| == 0 then ""
    else if |xs| == 1 then xs[0]
    else xs[0] + sep + Join(xs[1..], sep)
  }

  /** Joining one more piece appends the separator and the piece. */
  lemma {:induction false} JoinSnoc(xs: seq<string>, y: string, sep: string)
    ensures Join(xs + [y], sep) == if xs == [] then y else Join(xs, sep) + sep + y
    decreases |xs|
  {
    if |xs| >= 2 {
      assert (xs + [y])[1..] == xs[1..] + [y];
      JoinSnoc(xs[1..], y, sep);
    } else if |xs| == 1 {
      assert (xs + [y])[1..] == [y];
    }
  }

  /** Every joined piece occurs in the joined string. */
  lemma {:induction false} JoinContainsPiece(xs: seq<string>, sep: string, k: nat)
    requires k < |xs|
    ensures Contains(Join(xs, sep), xs[k])
    decreases |xs|
  {
    if |xs| == 1 {
      ContainsInContext("", xs[0], "");
      assert "" + xs[0] + "" == xs[0];
    } else if k == 0 {
      ContainsInContext("", xs[0], sep + Join(xs[1..], sep));
      assert "" + xs[0] + (sep + Join(xs[1..], sep)) == Join(xs, sep);
    } else {
      assert xs[1..][k - 1] == xs[k];
      JoinContainsPiece(xs[1..], sep, k - 1);
      var rest := Join(xs[1..], sep);
      ContainsWithin(xs[0] + sep, rest, "", xs[k]);
      assert xs[0] + sep + rest + "" == Join(xs, sep);
    }
  }

  /** JavaScript's `replace` of every occurrence of one character by nothing
      (Rust `str::replace` with a one-character pattern and `""`). */
  function RemoveChar(s: string, c: char): (r: string)
    ensures c !in r
    ensures |r| <= |s|
    ensures c !in s ==> r == s
  {
    if s == [] then []
    else (if s[0] == c then [] else [s[0]]) + RemoveChar(s[1..], c)
  }

  function UpperChar(c: char): char {
    if 'a' <= c <= 'z' then (c as int - 32) as char else c
  }

  function LowerChar(c: char): char {
    if 'A' <= c <= 'Z' then (c as int + 32) as char else c
  }

  /** `toUpperCase` on the ASCII letters; every other character is kept. */
  function ToUpper(s: string): (r: string)
    ensures |r| == |s|
    ensures forall i :: 0 <= i < |s| ==> r[i] == UpperChar(s[i])
  {
    seq(|s|, i requires 0 <= i < |s| => UpperChar(s[i]))
  }

  /** `toLowerCase` on the ASCII letters; every other character is kept. */
  function ToLower(s: string): (r: string)
    ensures |r| == |s|
    ensures forall i :: 0 <= i < |s| ==> r[i] == LowerChar(s[i])
  {
    seq(|s|, i requires 0 <= i < |s| => LowerChar(s[i]))
  }

  /** Lexicographic order by code point: a prefix comes first, otherwise the
      first differing character decides. */
  predicate LexLe(a: string, b: string)
    decreases |a|
  {
    a == [] || (b != [] && (a[0] < b[0] || (a[0] == b[0] && LexLe(a[1..], b[1..]))))
  }

  /** JavaScript's `<` on strings; Rust's `<` on `str`. */
  predicate LexLt(a: string, b: string) {
    LexLe(a, b) && a != b
  }

  lemma {:induction false} LexLeRefl(a: string)
    ensures LexLe(a, a)
    decreases |a|
  {
    if a != [] { LexLeRefl(a[1..]); }
  }

  lemma {:induction false} LexLeTotal(a: string, b: string)
    ensures LexLe(a, b) || LexLe(b, a)
    decreases |a|
  {
    if a != [] && b != [] && a[0] == b[0] { LexLeTotal(a[1..], b[1..]); }
  }

  lemma {:induction false} LexLeAntisym(a: string, b: string)
    requires LexLe(a, b) && LexLe(b, a)
    ensures a == b
    decreases |a|
  {
    if a != [] {
      LexLeAntisym(a[1..], b[1..]);
      assert a == [a[0]] + a[1..] && b == [b[0]] + b[1..];
    }
  }

  lemma {:induction false} LexLeTrans(a: string, b: string, c: string)
    requires LexLe(a, b) && LexLe(b, c)
    ensures LexLe(a, c)
    decreases |a|
  {
    if a != [] && a[0] == b[0] && b[0] == c[0] {
      LexLeTrans(a[1..], b[1..], c[1..]);
    }
  }

  function Digit(d: nat): char
    requires d < 10
  {
    ('0' as int + d) as char
  }

  /** The decimal rendering of a natural number (JavaScript `n + ''`,
      Rust `n.to_string()`), with no leading zero. */
  function DecimalString(n: nat): (r: string)
    ensures |r| >= 1
    ensures forall i :: 0 <= i < |r| ==> '0' <= r[i] <= '9'
    ensures |r| > 1 ==> r[0] != '0'
  {
    if n < 10 then [Digit(n)] else DecimalString(n / 10) + [Digit(n % 10)]
  }
}
