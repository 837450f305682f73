/** Values shared by every page model: optional values and results, the page-level
    permission record, JavaScript's notion of white space (used by `trim` and by the
    `\S` regular-expression class) and the two input shapes checked by regular
    expressions (e-mail and phone). */
module Common {

  datatype Option<T> = None | Some(value: T)

  datatype Result<T, E> = Ok(value: T) | Err(error: E)

  /** The permission record a page loads for itself.  The server may omit a flag;
      an omitted flag reads as false, so every flag here is a plain boolean. */
  datatype Permissions = Permissions(
    isAdd: bool, isEdit: bool, isView: bool, isDelete: bool,
    isPrint: bool, isDownload: bool, isPost: bool)

  /** `v || ''` on a text property the server may omit. */
  function OrEmpty(v: Option<string>): (r: string)
    ensures v.Some? ==> r == v.value
    ensures v.None? ==> r == ""
  {
    if v.Some? then v.value else ""
  }

  predicate Distinct<T(==)>(s: seq<T>) {
    forall i, j :: 0 <= i < j < |s| ==> s[i] != s[j]
  }

  /** ECMAScript WhiteSpace and LineTerminator code points: what `String.prototype.trim`
      removes and what the regular-expression class `\s` matches. */
  predicate IsSpace(c: char) {
    c == ' ' || c == '\t' || c == '\n' || c == '\r' || c == '\U{000B}' || c == '\U{000C}'
    || c == '\U{00A0}' || c == '\U{1680}' || ('\U{2000}' <= c <= '\U{200A}')
    || c == '\U{2028}' || c == '\U{2029}' || c == '\U{202F}' || c == '\U{205F}'
    || c == '\U{3000}' || c == '\U{FEFF}'
  }

  predicate AllSpace(s: string) {
    forall k :: 0 <= k < |s| ==> IsSpace(s[k])
  }

  predicate NoSpace(s: string) {
    forall k :: 0 <= k < |s| ==> !IsSpace(s[k])
  }

  /** Drops leading white space. */
  function TrimStart(s: string): string {
    if s != [] && IsSpace(s[0]) then TrimStart(s[1..]) else s
  }

  /** Drops trailing white space. */
  function TrimEnd(s: string): string {
    if s != [] && IsSpace(s[|s| - 1]) then TrimEnd(s[..|s| - 1]) else s
  }

  /** `String.prototype.trim`. */
  function Trim(s: string): string {
    TrimEnd(TrimStart(s))
  }

  /** `TrimStart` keeps the suffix of `s` that starts at its first non-space
      character. */
  lemma {:induction false} TrimStartFacts(s: string)
    ensures var r := TrimStart(s);
      && |r| <= |s| && r == s[|s| - |r|..]
      && AllSpace(s[..|s| - |r|])
      && (r == [] || !IsSpace(r[0]))
  {
    if s != [] && IsSpace(s[0]) {
      var r := TrimStart(s[1..]);
      TrimStartFacts(s[1..]);
      assert s[..|s| - |r|] == [s[0]] + s[1..][..|s[1..]| - |r|];
    }
  }

  /** `TrimEnd` keeps the prefix of `s` that ends at its last non-space character. */
  lemma {:induction false} TrimEndFacts(s: string)
    ensures var r := TrimEnd(s);
      && |r| <= |s| && r == s[..|r|]
      && AllSpace(s[|r|..])
      && (r == [] || !IsSpace(r[|r| - 1]))
  {
    if s != [] && IsSpace(s[|s| - 1]) {
      var r := TrimEnd(s[..|s| - 1]);
      TrimEndFacts(s[..|s| - 1]);
      assert s[|r|..] == s[..|s| - 1][|r|..] + [s[|s| - 1]];
    }
  }

  /** Neither starts nor ends with white space. */
  predicate Trimmed(r: string) {
    r == [] || (!IsSpace(r[0]) && !IsSpace(r[|r| - 1]))
  }

  /** The trimmed text is the infix of `s` left once only white space has been
      dropped on either side, and it neither starts nor ends with white space. */
  lemma TrimFacts(s: string)
    ensures var r := Trim(s);
      && (exists i :: 0 <= i <= |s| - |r| && r == s[i..i + |r|] && AllSpace(s[..i]) && AllSpace(s[i + |r|..]))
      && Trimmed(r)
  {
    var a := TrimStart(s);
    var r := TrimEnd(a);
    TrimStartFacts(s);
    TrimEndFacts(a);
    var i := |s| - |a|;
    assert r == a[..|r|] == s[i..i + |r|];
    assert s[i + |r|..] == a[|r|..];
    assert Trimmed(r) by {
      if r != [] {
        assert r[0] == a[0];
      }
    }
    assert AllSpace(s[..i]) && AllSpace(s[i + |r|..]);
  }

  /** Trimming twice is trimming once. */
  lemma TrimIdempotent(s: string)
    ensures Trim(Trim(s)) == Trim(s)
  {
    var r := Trim(s);
    TrimFacts(s);
    assert TrimStart(r) == r;
    assert TrimEnd(r) == r;
  }

  /** Text without white space is its own trim. */
  lemma NoSpaceTrim(s: string)
    requires NoSpace(s)
    ensures Trim(s) == s
  {
  }

  /** `!s.trim()`: the guard every form uses for a required text field. */
  predicate IsBlank(s: string) {
    Trim(s) == ""
  }

  lemma AllSpaceConcat(a: string, b: string)
    ensures AllSpace(a + b) <==> AllSpace(a) && AllSpace(b)
  {
    if AllSpace(a + b) {
      assert forall k :: 0 <= k < |a| ==> a[k] == (a + b)[k];
      assert forall k :: 0 <= k < |b| ==> b[k] == (a + b)[|a| + k];
    }
  }

  /** A string is blank exactly when every character of it is white space. */
  lemma BlankIffAllSpace(s: string)
    ensures IsBlank(s) <==> AllSpace(s)
  {
    var a := TrimStart(s);
    var r := TrimEnd(a);
    TrimStartFacts(s);
    TrimEndFacts(a);
    assert Trim(s) == r;
    assert s == s[..|s| - |a|] + a;
    AllSpaceConcat(s[..|s| - |a|], a);
    if r == "" {
      assert a[|r|..] == a;
    } else {
      assert r[0] == a[0];
    }
  }

  /** The language of the regular expression `^\S+@\S+\.\S+$`: three non-empty runs of
      non-space characters joined by an `@` and a `.`. */
  ghost predicate InEmailLanguage(s: string) {
    exists i, j :: 0 < i && i + 1 < j && j + 1 < |s| && s[i] == '@' && s[j] == '.'
      && NoSpace(s[..i]) && NoSpace(s[i + 1..j]) && NoSpace(s[j + 1..])
  }

  /** The test the pages run: no white space anywhere, an `@` after at least one
      character, and a later `.` with a character between them and one after it. */
  predicate EmailShape(s: string) {
    NoSpace(s)
    && exists i, j | 0 < i && i + 1 < j && j + 1 < |s| :: s[i] == '@' && s[j] == '.'
  }

  lemma NoSpaceSlices(s: string, i: nat, j: nat)
    requires NoSpace(s) && i <= j <= |s|
    ensures NoSpace(s[i..j])
  {
    forall k | 0 <= k < j - i ensures !IsSpace(s[i..j][k]) {
      assert s[i..j][k] == s[i + k];
    }
  }

  /** The executable check accepts exactly the strings of the regular expression. */
  lemma EmailShapeMatchesRegex(s: string)
    ensures EmailShape(s) <==> InEmailLanguage(s)
  {
    if EmailShape(s) {
      var i, j :| 0 < i && i + 1 < j && j + 1 < |s| && s[i] == '@' && s[j] == '.';
      NoSpaceSlices(s, 0, i);
      NoSpaceSlices(s, i + 1, j);
      NoSpaceSlices(s, j + 1, |s|);
      assert s[..i] == s[0..i] && s[j + 1..] == s[j + 1..|s|];
    }
    if InEmailLanguage(s) {
      var i, j :| 0 < i && i + 1 < j && j + 1 < |s| && s[i] == '@' && s[j] == '.'
        && NoSpace(s[..i]) && NoSpace(s[i + 1..j]) && NoSpace(s[j + 1..]);
      forall k | 0 <= k < |s| ensures !IsSpace(s[k]) {
        if k < i { assert s[k] == s[..i][k]; }
        else if k == i || k == j { }
        else if k < j { assert s[k] == s[i + 1..j][k - i - 1]; }
        else { assert s[k] == s[j + 1..][k - j - 1]; }
      }
    }
  }

  /** The priority a page sends: the entered number when it is positive, 1 when it
      is zero, negative or not a number (`None`, for `NaN`). */
  function PositivePriority(p: Option<int>): (r: int)
    ensures r >= 1
    ensures p.Some? && p.value > 0 ==> r == p.value
    ensures !(p.Some? && p.value > 0) ==> r == 1
  {
    if p.Some? && p.value > 0 then p.value else 1
  }

  /** A sent priority is sent again unchanged. */
  lemma PositivePriorityIdempotent(p: Option<int>)
    ensures PositivePriority(Some(PositivePriority(p))) == PositivePriority(p)
  {
  }

  predicate IsDigit(c: char) {
    '0' <= c <= '9'
  }

  /** The regular expression `^\d{10,20}$` used for phone numbers. */
  predicate PhoneShape(s: string) {
    10 <= |s| <= 20 && forall k :: 0 <= k < |s| ==> IsDigit(s[k])
  }
}
