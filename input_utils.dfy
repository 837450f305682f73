/** `allowTwoDecimals`: the sanitiser every amount field runs on each keystroke and
    paste.  It keeps digits and dots, then cuts the text after the first fractional
    part and that part after two digits. */
module InputUtils {

  /** The characters the class `[0-9.]` matches. */
  predicate IsDecimalChar(c: char) {
    ('0' <= c <= '9') || c == '.'
  }

  predicate DecimalChars(s: string) {
    forall k :: 0 <= k < |s| ==> IsDecimalChar(s[k])
  }

  predicate NoDot(s: string) {
    forall k :: 0 <= k < |s| ==> s[k] != '.'
  }

  /** `value.replace(/[^0-9.]/g, "")`: the decimal characters of `s`, in order. */
  function Filter(s: string): (r: string)
    ensures |r| <= |s| && DecimalChars(r)
    ensures DecimalChars(s) ==> r == s
    ensures |s| == 1 ==> r == (if IsDecimalChar(s[0]) then s else [])
  {
    if s == [] then []
    else (if IsDecimalChar(s[0]) then [s[0]] else []) + Filter(s[1..])
  }

  /** The filter works character by character, so it distributes over
      concatenation. */
  lemma {:induction false} FilterConcat(a: string, b: string)
    ensures Filter(a + b) == Filter(a) + Filter(b)
  {
    if a == [] {
      assert a + b == b;
    } else {
      assert (a + b)[0] == a[0] && (a + b)[1..] == a[1..] + b;
      FilterConcat(a[1..], b);
    }
  }

  /** `s.split(".")`: the dot-free runs between the dots, one more run than dots. */
  function Split(s: string): (parts: seq<string>)
    ensures |parts| >= 1
    ensures forall k :: 0 <= k < |parts| ==> NoDot(parts[k])
  {
    if s == [] then [""]
    else
      var rest := Split(s[1..]);
      if s[0] == '.' then [""] + rest
      else [[s[0]] + rest[0]] + rest[1..]
  }

  /** `parts.join(".")`. */
  function Join(parts: seq<string>): (s: string)
    requires |parts| >= 1
  {
    if |parts| == 1 then parts[0] else parts[0] + "." + Join(parts[1..])
  }

  /** Splitting and joining again gives back the text. */
  lemma {:induction false} JoinSplit(s: string)
    ensures Join(Split(s)) == s
  {
    if s != [] {
      JoinSplit(s[1..]);
      var rest := Split(s[1..]);
      if s[0] == '.' {
        assert Split(s)[1..] == rest;
      } else {
        var parts := Split(s);
        if |rest| == 1 {
          assert parts == [[s[0]] + rest[0]];
        } else {
          assert parts[1..] == rest[1..];
          assert s == [s[0]] + (rest[0] + "." + Join(rest[1..]));
        }
      }
    }
  }

  /** Joining dot-free runs and splitting again gives back the runs. */
  lemma {:induction false} SplitJoin(parts: seq<string>)
    requires |parts| >= 1
    requires forall k :: 0 <= k < |parts| ==> NoDot(parts[k])
    ensures Split(Join(parts)) == parts
  {
    if |parts| == 1 {
      NoDotSplit(parts[0]);
    } else {
      SplitJoin(parts[1..]);
      SplitAfterRun(parts[0], Join(parts[1..]));
      assert parts == [parts[0]] + parts[1..];
    }
  }

  lemma {:induction false} NoDotSplit(s: string)
    requires NoDot(s)
    ensures Split(s) == [s]
  {
    if s != [] {
      assert NoDot(s[1..]) by {
        forall k | 0 <= k < |s[1..]| ensures s[1..][k] != '.' { assert s[1..][k] == s[k + 1]; }
      }
      NoDotSplit(s[1..]);
      assert [s[0]] + s[1..] == s;
    }
  }

  /** Splitting a dot-free run followed by a dot and a tail. */
  lemma {:induction false} SplitAfterRun(a: string, b: string)
    requires NoDot(a)
    ensures Split(a + "." + b) == [a] + Split(b)
  {
    if a == [] {
      assert a + "." + b == ['.'] + b;
      assert (['.'] + b)[1..] == b;
    } else {
      SplitAfterRun(a[1..], b);
      assert (a + "." + b)[1..] == a[1..] + "." + b;
      assert [a[0]] + a[1..] == a;
    }
  }

  /** The first two runs of a split, read back from the text. */
  lemma SplitHead(s: string)
    ensures var parts := Split(s);
      && (|parts| == 1 ==> parts[0] == s)
      && (|parts| >= 2 ==>
            && |parts[0]| < |s|
            && s[..|parts[0]|] == parts[0] && s[|parts[0]|] == '.'
            && var e := |parts[0]| + 1 + |parts[1]|;
            && e <= |s| && s[|parts[0]| + 1..e] == parts[1]
            && (|parts| == 2 ==> e == |s|)
            && (|parts| > 2 ==> e < |s| && s[e] == '.'))
  {
    var parts := Split(s);
    JoinSplit(s);
    if |parts| >= 2 {
      var tail := Join(parts[1..]);
      assert s == parts[0] + "." + tail;
      if |parts| == 2 {
        assert tail == parts[1];
      } else {
        assert tail == parts[1] + "." + Join(parts[2..]);
        assert s == parts[0] + "." + parts[1] + "." + Join(parts[2..]);
      }
    }
  }

  /** What the sanitiser guarantees: decimal characters only, at most one dot, and at
      most two characters after it. */
  predicate Clean(s: string) {
    && DecimalChars(s)
    && forall i :: 0 <= i < |s| && s[i] == '.' ==>
         |s| - i - 1 <= 2 && forall j :: 0 <= j < |s| && s[j] == '.' ==> j == i
  }

  /** `allowTwoDecimals(value)`. */
  function AllowTwoDecimals(value: string): (r: string)
  {
    if value == "" then ""
    else
      var sanitized := Filter(value);
      var parts := Split(sanitized);
      var sanitized := if |parts| > 2 then parts[0] + "." + parts[1] else sanitized;
      if |parts| >= 2 && parts[1] != "" && |parts[1]| > 2 then parts[0] + "." + parts[1][..2]
      else sanitized
  }

  predicate IsPrefix(a: string, b: string) {
    |a| <= |b| && b[..|a|] == a
  }

  /** `r` is a clean prefix of `f` that cannot be extended by one character. */
  predicate LongestClean(f: string, r: string) {
    IsPrefix(r, f) && Clean(r) && (|r| < |f| ==> !Clean(f[..|r| + 1]))
  }

  lemma CleanDotFree(a: string, b: string)
    requires DecimalChars(a) && DecimalChars(b) && NoDot(a) && NoDot(b) && |b| <= 2
    ensures Clean(a + "." + b)
  {
    var s := a + "." + b;
    forall k | 0 <= k < |s| ensures IsDecimalChar(s[k]) && (s[k] == '.' <==> k == |a|) {
      if k < |a| { assert s[k] == a[k]; }
      else if k > |a| { assert s[k] == b[k - |a| - 1]; }
    }
  }

  /** The runs around the first dot of a filtered text, read back from it. */
  predicate FirstRuns(f: string, a: string, b: string) {
    && DecimalChars(f) && NoDot(a) && NoDot(b)
    && |a| + 1 + |b| <= |f| && f[..|a|] == a && f[|a|] == '.' && f[|a| + 1..|a| + 1 + |b|] == b
  }

  lemma RunsDecimal(f: string, a: string, b: string)
    requires FirstRuns(f, a, b)
    ensures DecimalChars(a) && DecimalChars(b)
  {
    var n := |a|;
    forall k | 0 <= k < |a| ensures IsDecimalChar(a[k]) { assert a[k] == f[k]; }
    forall k | 0 <= k < |b| ensures IsDecimalChar(b[k]) { assert b[k] == f[n + 1 + k]; }
  }

  /** A fraction longer than two digits is cut after two: one more digit would make
      three. */
  lemma CutFraction(f: string, a: string, b: string)
    requires FirstRuns(f, a, b) && |b| > 2
    ensures LongestClean(f, a + "." + b[..2])
  {
    var n := |a|;
    RunsDecimal(f, a, b);
    assert f[n + 1..n + 3] == b[..2];
    assert f[..n + 3] == f[..n] + [f[n]] + f[n + 1..n + 3];
    CleanDotFree(a, b[..2]);
    var g := f[..n + 4];
    assert g[n] == '.' && |g| - n - 1 == 3;
  }

  /** A second dot ends the text before it. */
  lemma CutSecondDot(f: string, a: string, b: string)
    requires FirstRuns(f, a, b) && |b| <= 2
    requires |a| + 1 + |b| < |f| && f[|a| + 1 + |b|] == '.'
    ensures LongestClean(f, a + "." + b)
  {
    var n := |a|;
    RunsDecimal(f, a, b);
    assert f[..n + 1 + |b|] == f[..n] + [f[n]] + f[n + 1..n + 1 + |b|];
    CleanDotFree(a, b);
    var g := f[..n + 2 + |b|];
    assert g[n] == '.' && g[n + 1 + |b|] == '.';
  }

  /** One dot and at most two digits after it: nothing to cut. */
  lemma KeepWhole(f: string, a: string, b: string)
    requires FirstRuns(f, a, b) && |b| <= 2 && |a| + 1 + |b| == |f|
    ensures f == a + "." + b && LongestClean(f, f)
  {
    var n := |a|;
    RunsDecimal(f, a, b);
    assert f == f[..n] + [f[n]] + f[n + 1..n + 1 + |b|];
    CleanDotFree(a, b);
  }

  lemma OneRunClean(f: string)
    requires DecimalChars(f) && |Split(f)| == 1
    ensures LongestClean(f, f)
  {
    SplitHead(f);
    assert NoDot(f);
  }

  lemma SplitRuns(f: string)
    requires DecimalChars(f) && |Split(f)| >= 2
    ensures FirstRuns(f, Split(f)[0], Split(f)[1])
    ensures |Split(f)| == 2 ==> |Split(f)[0]| + 1 + |Split(f)[1]| == |f|
    ensures |Split(f)| > 2 ==> |Split(f)[0]| + 1 + |Split(f)[1]| < |f| && f[|Split(f)[0]| + 1 + |Split(f)[1]|] == '.'
  {
    SplitHead(f);
  }

  /** The result is the longest prefix of the filtered text that is clean: it is a
      prefix, it is clean, and the filtered text has no clean prefix one character
      longer.  So the digits before the dot are never touched. */
  lemma LongestCleanPrefix(value: string)
    ensures LongestClean(Filter(value), AllowTwoDecimals(value))
  {
    if value != "" {
      var f := Filter(value);
      var parts := Split(f);
      if |parts| == 1 {
        assert AllowTwoDecimals(value) == f;
        OneRunClean(f);
      } else {
        var a, b := parts[0], parts[1];
        SplitRuns(f);
        if |b| > 2 {
          assert AllowTwoDecimals(value) == a + "." + b[..2];
          CutFraction(f, a, b);
        } else if |parts| > 2 {
          assert AllowTwoDecimals(value) == a + "." + b;
          CutSecondDot(f, a, b);
        } else {
          assert AllowTwoDecimals(value) == f;
          KeepWhole(f, a, b);
        }
      }
    }
  }

  /** Every prefix of a clean string is clean, so the longest clean prefix is unique. */
  lemma CleanPrefix(s: string, n: nat)
    requires Clean(s) && n <= |s|
    ensures Clean(s[..n])
  {
    var p := s[..n];
    forall i | 0 <= i < |p| && p[i] == '.'
      ensures |p| - i - 1 <= 2 && forall j :: 0 <= j < |p| && p[j] == '.' ==> j == i
    {
      assert s[i] == '.';
      forall j | 0 <= j < |p| && p[j] == '.' ensures j == i { assert s[j] == '.'; }
    }
  }

  /** The sanitiser leaves a string alone exactly when it is already clean. */
  lemma FixedPoints(s: string)
    ensures AllowTwoDecimals(s) == s <==> Clean(s)
  {
    LongestCleanPrefix(s);
    if Clean(s) && s != "" {
      var r := AllowTwoDecimals(s);
      assert Filter(s) == s;
      assert |r| == |s|;
    }
  }

  /** Sanitising twice is sanitising once. */
  lemma Idempotent(value: string)
    ensures AllowTwoDecimals(AllowTwoDecimals(value)) == AllowTwoDecimals(value)
  {
    LongestCleanPrefix(value);
    FixedPoints(AllowTwoDecimals(value));
  }

  /** Empty input, and text with no decimal characters at all, give the empty string. */
  lemma EmptyResults(value: string)
    ensures value == "" ==> AllowTwoDecimals(value) == ""
    ensures Filter(value) == "" ==> AllowTwoDecimals(value) == ""
  {
    LongestCleanPrefix(value);
  }

  lemma SplitOf(a: string, b: string)
    requires NoDot(a) && NoDot(b)
    ensures Split(a + "." + b) == [a, b]
  {
    SplitAfterRun(a, b);
    NoDotSplit(b);
  }

  /** A clean integer part followed by a fraction longer than two digits. */
  lemma LongFraction(a: string, b: string)
    requires NoDot(a) && NoDot(b) && DecimalChars(a + "." + b) && |b| > 2
    ensures AllowTwoDecimals(a + "." + b) == a + "." + b[..2]
  {
    SplitOf(a, b);
  }

  /** Characters outside the class in front of a clean text are all dropped. */
  lemma {:induction false} FilterDropsPrefix(x: string, y: string)
    requires forall k :: 0 <= k < |x| ==> !IsDecimalChar(x[k])
    requires DecimalChars(y)
    ensures Filter(x + y) == y
  {
    if x != [] {
      assert (x + y)[1..] == x[1..] + y;
      FilterDropsPrefix(x[1..], y);
    }
  }

  /** A clean integer part followed by a fraction of at most two digits is kept. */
  lemma ShortFraction(a: string, b: string)
    requires NoDot(a) && NoDot(b) && DecimalChars(a + "." + b) && |b| <= 2
    ensures AllowTwoDecimals(a + "." + b) == a + "." + b
  {
    SplitOf(a, b);
  }

  /** Three runs whose middle one has at most two digits. */
  lemma SecondDot(a: string, b: string, c: string)
    requires NoDot(a) && NoDot(b) && NoDot(c) && DecimalChars(a + "." + b + "." + c) && |b| <= 2
    ensures AllowTwoDecimals(a + "." + b + "." + c) == a + "." + b
  {
    SplitOf(b, c);
    SplitAfterRun(a, b + "." + c);
    assert a + "." + b + "." + c == a + "." + (b + "." + c);
  }

  /** A third digit after the dot is cut. */
  lemma ExampleLongFraction()
    ensures AllowTwoDecimals("12.345") == "12.34"
  {
    assert "12" + "." + "345" == "12.345";
    LongFraction("12", "345");
    assert "12" + "." + "345"[..2] == "12.34";
  }

  /** A second dot cuts the text before it. */
  lemma ExampleSecondDot()
    ensures AllowTwoDecimals("12.3.4") == "12.3"
  {
    assert "12" + "." + "3" + "." + "4" == "12.3.4";
    SecondDot("12", "3", "4");
    assert "12" + "." + "3" == "12.3";
  }

  /** Letters are dropped. */
  lemma ExampleLetters()
    ensures AllowTwoDecimals("abc12.5") == "12.5"
  {
    assert "abc" + "12.5" == "abc12.5";
    FilterDropsPrefix("abc", "12.5");
    assert "12" + "." + "5" == "12.5";
    ShortFraction("12", "5");
  }

  /** `handleDecimalPaste`: the pasted clipboard text, sanitised.  Reading the clipboard
      and cancelling the browser's own paste are left to the caller. */
  function HandleDecimalPaste(pasted: string): (r: string)
    ensures Clean(r) && IsPrefix(r, Filter(pasted))
    ensures r == AllowTwoDecimals(pasted)
  {
    LongestCleanPrefix(pasted);
    AllowTwoDecimals(pasted)
  }
}
