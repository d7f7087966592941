/** The JavaScript string operations the user controller relies on:
    `String.prototype.trim`, `String.prototype.toLowerCase`, and the
    truthiness tests it applies to request-body fields. */
module JsText {
  import opened Wrappers

  /** The code points JavaScript classes as WhiteSpace or LineTerminator,
      which is exactly what `trim` strips from both ends. */
  predicate IsSpace(c: char) {
    || c == ' ' || c == '\t' || c == '\n' || c == '\r'
    || c == '\U{000B}' || c == '\U{000C}' || c == '\U{00A0}' || c == '\U{1680}'
    || ('\U{2000}' <= c <= '\U{200A}')
    || c == '\U{2028}' || c == '\U{2029}' || c == '\U{202F}' || c == '\U{205F}'
    || c == '\U{3000}' || c == '\U{FEFF}'
  }

  predicate AllSpace(s: string) {
    forall i | 0 <= i < |s| :: IsSpace(s[i])
  }

  /** Drops leading white space: the result is a suffix of `s`, everything
      dropped is white space, and the result does not start with white space. */
  function TrimStart(s: string): (r: string)
    ensures |r| <= |s| && r == s[|s| - |r|..]
    ensures AllSpace(s[..|s| - |r|])
    ensures r != [] ==> !IsSpace(r[0])
  {
    if s != [] && IsSpace(s[0]) then TrimStart(s[1..]) else s
  }

  /** Drops trailing white space: the result is a prefix of `s`, everything
      dropped is white space, and the result does not end with white space. */
  function TrimEnd(s: string): (r: string)
    ensures |r| <= |s| && r == s[..|r|]
    ensures AllSpace(s[|r|..])
    ensures r != [] ==> !IsSpace(r[|r| - 1])
  {
    if s != [] && IsSpace(s[|s| - 1]) then TrimEnd(s[..|s| - 1]) else s
  }

  /** `r` is the slice of `s` at offset `a`, with only white space before and
      after it in `s`. */
  predicate Framed(s: string, r: string, a: int) {
    0 <= a <= |s| - |r| && r == s[a..a + |r|] && AllSpace(s[..a]) && AllSpace(s[a + |r|..])
  }

  /** `s.trim()`: the input with its white-space ends removed. The result is
      a slice of `s` with only white space before and after it, and when
      non-empty it neither starts nor ends with white space. */
  function Trim(s: string): (r: string)
    ensures |r| <= |s|
    ensures exists a :: Framed(s, r, a)
    ensures r != [] ==> !IsSpace(r[0]) && !IsSpace(r[|r| - 1])
  {
    TrimIsSlice(s);
    TrimEnd(TrimStart(s))
  }

  /** Trimming both ends keeps the slice of `s` that starts where the leading
      white space ends. */
  lemma TrimIsSlice(s: string)
    ensures Framed(s, TrimEnd(TrimStart(s)), |s| - |TrimStart(s)|)
  {
    var t := TrimStart(s);
    var a := |s| - |t|;
    assert t == s[a..] && AllSpace(s[..a]);
    var r := TrimEnd(t);
    assert r == t[..|r|] && AllSpace(t[|r|..]);
    assert s[a..a + |r|] == t[..|r|];
    assert s[a + |r|..] == t[|r|..];
  }

  /** `s.trim() === ""` holds exactly for the strings made only of white space. */
  lemma TrimEmptyIffAllSpace(s: string)
    ensures Trim(s) == "" <==> AllSpace(s)
  {
    var t := TrimStart(s);
    if Trim(s) == "" {
      assert t[0..] == t;
      assert t == [];
      assert s[..|s|] == s;
    }
  }

  /** `!field`: `undefined`, `null` and the empty string are falsy. */
  predicate Falsy(field: Option<string>) {
    field.None? || field.value == ""
  }

  /** `!field || field.trim() === ""`, stated through `AllSpace`;
      `BlankIsTrimEmpty` shows the two agree. */
  predicate Blank(field: Option<string>) {
    field.None? || AllSpace(field.value)
  }

  /** `field?.trim() === ""`: an absent field yields `undefined`, which is
      not `""`, so only a present, blank field satisfies it. */
  predicate PresentButBlank(field: Option<string>) {
    field.Some? && AllSpace(field.value)
  }

  /** The blank tests are the JavaScript ones: a field is blank exactly when it
      is absent or trims to the empty string, and every falsy field is blank. */
  lemma {:induction false} BlankIsTrimEmpty(field: Option<string>)
    ensures Blank(field) <==> field.None? || Trim(field.value) == ""
    ensures PresentButBlank(field) <==> field.Some? && Trim(field.value) == ""
    ensures Falsy(field) ==> Blank(field)
  {
    if field.Some? {
      TrimEmptyIffAllSpace(field.value);
    }
  }

  predicate IsUpper(c: char) {
    'A' <= c <= 'Z'
  }

  function LowerChar(c: char): char {
    if IsUpper(c) then (c as int + 32) as char else c
  }

  /** `s.toLowerCase()`, restricted to the ASCII letters. */
  function ToLower(s: string): string {
    if s == [] then [] else [LowerChar(s[0])] + ToLower(s[1..])
  }

  /** Lower-casing maps each character on its own: the length is kept, an
      upper-case letter becomes its lower-case form, every other character is
      kept, and no upper-case letter remains. */
  lemma {:induction false} ToLowerPointwise(s: string)
    ensures |ToLower(s)| == |s|
    ensures forall i | 0 <= i < |s| :: ToLower(s)[i] == LowerChar(s[i]) && !IsUpper(ToLower(s)[i])
  {
    if s != [] {
      ToLowerPointwise(s[1..]);
    }
  }

  /** Lower-casing is idempotent, and it leaves a string unchanged exactly
      when the string holds no upper-case letter. */
  lemma ToLowerFixedPoints(s: string)
    ensures ToLower(ToLower(s)) == ToLower(s)
    ensures ToLower(s) == s <==> forall i | 0 <= i < |s| :: !IsUpper(s[i])
  {
    ToLowerPointwise(s);
    ToLowerPointwise(ToLower(s));
  }
}
