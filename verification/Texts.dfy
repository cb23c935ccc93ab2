/**
 Loosely typed record fields, and the trimming and case folding that identities go through
 (ASCII letters and blanks).
 */
module Texts {

  /** A field of a JSON-like record; `Missing` is also None.  `Other` is any further value,
      with its text form and its truth value. */
  datatype Field = Missing | Text(s: string) | Flag(b: bool) | Other(shown: string, truthy: bool)

  /** The keys an identity is read under, and any other. */
  datatype Key = LocalOrderId | ClientId | ClientEmail | ExecutionMode | SignalId | CanonicalSignalId
      | Named(text: string)

  type Record = map<Key, Field>

  function Get(r: Record, key: Key): Field {
    if key in r then r[key] else Missing
  }

  predicate Blank(c: char) {
    c == ' ' || '\t' <= c <= '\r' || '\U{1C}' <= c <= '\U{1F}'
  }

  predicate Unpadded(s: string) {
    s == "" || (!Blank(s[0]) && !Blank(s[|s| - 1]))
  }

  function TrimStart(s: string): (r: string)
    ensures r == "" || (s != "" && !Blank(r[0]) && r[|r| - 1] == s[|s| - 1])
    ensures s != "" && !Blank(s[0]) ==> r == s
  {
    if s == "" || !Blank(s[0]) then s else TrimStart(s[1..])
  }

  function TrimEnd(s: string): (r: string)
    ensures r == "" || (s != "" && !Blank(r[|r| - 1]) && r[0] == s[0])
    ensures s != "" && !Blank(s[|s| - 1]) ==> r == s
  {
    if s == "" || !Blank(s[|s| - 1]) then s else TrimEnd(s[..|s| - 1])
  }

  function Trim(s: string): (r: string)
    ensures Unpadded(r)
    ensures Unpadded(s) ==> r == s
  {
    TrimEnd(TrimStart(s))
  }

  function LowerChar(c: char): char {
    if 'A' <= c <= 'Z' then (c as int + 32) as char else c
  }

  function Lower(s: string): (r: string)
    ensures |r| == |s| && (s != "" ==> r[0] == LowerChar(s[0]) && r[|r| - 1] == LowerChar(s[|s| - 1]))
  {
    if s == "" then "" else [LowerChar(s[0])] + Lower(s[1..])
  }

  /** How an identity is compared: trimmed, and folded to lower case where the source does. */
  function Normal(s: string, lower: bool): string {
    if lower then Lower(Trim(s)) else Trim(s)
  }

  lemma {:induction false} LowerTwice(s: string)
    ensures Lower(Lower(s)) == Lower(s)
  {
    if s != "" {
      LowerTwice(s[1..]);
      assert Lower(s)[1..] == Lower(s[1..]);
    }
  }

  /** Normalising twice changes nothing, so a stored normal form is read back as itself. */
  lemma NormalIsStable(s: string, lower: bool)
    ensures Unpadded(Normal(s, lower)) && Normal(Normal(s, lower), lower) == Normal(s, lower)
  {
    LowerTwice(Trim(s));
  }

  /** The blanks a text is trimmed of: the space, tab to carriage return, and the four separators. */
  ghost predicate IsBlank(c: char) {
    c as int == 32 || 9 <= c as int <= 13 || 28 <= c as int <= 31
  }

  lemma {:induction false} StartIs(s: string) returns (i: nat)
    ensures i <= |s| && TrimStart(s) == s[i..] && (forall k :: 0 <= k < i ==> IsBlank(s[k]))
    ensures i < |s| ==> !IsBlank(s[i])
  {
    i := 0;
    if s != "" && Blank(s[0]) {
      var k := StartIs(s[1..]);
      i := k + 1;
      assert s[1..][k..] == s[i..];
      assert forall j :: 0 < j < i ==> s[j] == s[1..][j - 1];
    }
  }

  lemma {:induction false} EndIs(s: string) returns (j: nat)
    ensures j <= |s| && TrimEnd(s) == s[..j] && (forall k :: j <= k < |s| ==> IsBlank(s[k]))
    ensures j > 0 ==> !IsBlank(s[j - 1])
  {
    j := |s|;
    if s != "" && Blank(s[|s| - 1]) {
      j := EndIs(s[..|s| - 1]);
      assert s[..|s| - 1][..j] == s[..j];
    }
  }

  /** Trimming takes the blanks off both ends, all of them, and nothing else. */
  lemma TrimIs(s: string) returns (i: nat, j: nat)
    ensures i <= j <= |s| && Trim(s) == s[i..j]
    ensures forall k :: 0 <= k < |s| && (k < i || j <= k) ==> IsBlank(s[k])
    ensures i < j ==> !IsBlank(s[i]) && !IsBlank(s[j - 1])
  {
    i := StartIs(s);
    var n := EndIs(s[i..]);
    j := i + n;
    assert s[i..][..n] == s[i..j];
    assert forall k :: j <= k < |s| ==> s[k] == s[i..][k - i];
    if i < j { assert s[i..][n - 1] == s[j - 1]; }
  }

  /** Folding moves the 26 capitals by 32 and keeps every other character where it is. */
  lemma {:induction false} LowerAt(s: string, i: nat)
    requires i < |s|
    ensures var c := s[i] as int;
            |Lower(s)| == |s| && Lower(s)[i] as int == (if 65 <= c <= 90 then c + 32 else c)
  {
    if i > 0 { LowerAt(s[1..], i - 1); }
  }

  // ---- Reading fields ----

  predicate Present(f: Field) {
    match f
    case Missing => false
    case Text(s) => Trim(s) != ""
    case _ => true
  }

  function Shown(f: Field): string {
    match f
    case Missing => ""
    case Text(s) => s
    case Flag(b) => if b then "True" else "False"
    case Other(shown, _) => shown
  }

  predicate Truthy(f: Field) {
    match f
    case Missing => false
    case Text(s) => s != ""
    case Flag(b) => b
    case Other(_, truthy) => truthy
  }

  /** The text of `x or ""`. */
  function OrBlank(f: Field): string {
    if Truthy(f) then Shown(f) else ""
  }

  /** Absent, for all that matters, is a missing field and a text of blanks only. */
  lemma PresentIff(f: Field)
    ensures Present(f) <==> f != Missing && (f.Text? ==> exists k :: 0 <= k < |f.s| && !IsBlank(f.s[k]))
  {
    if f.Text? {
      var i, j := TrimIs(f.s);
      if i < j { assert !IsBlank(f.s[i]); }
    }
  }

  /** The text of `x or ""`: nothing for what is missing, empty or false, else the value's own text. */
  lemma OrBlankIs(f: Field)
    ensures OrBlank(f) ==
              match f
              case Missing => ""
              case Text(s) => s
              case Flag(b) => if b then "True" else ""
              case Other(shown, truthy) => if truthy then shown else ""
    ensures Truthy(f) <==> f != Missing && f != Text("") && f != Flag(false) && (f.Other? ==> f.truthy)
    ensures Shown(f) == (if f == Flag(false) then "False" else if f.Other? then f.shown else OrBlank(f))
  {
  }
}
