/**
 * The string operations of JavaScript that the content scripts rely on:
 * truthiness of an optional string, `String.prototype.trim`,
 * `String.prototype.indexOf` with a start position, and the
 * `[city, region, country].filter(Boolean).join(', ')` idiom that builds the
 * location line.
 */
module Text {
  import opened Wrappers

  /** A JSON field that may be missing, `null`, or a string. */
  type Field = Option<string>

  /** `Boolean(f)` for a field: present and not the empty string. */
  predicate Truthy(f: Field) {
    f.Some? && f.value != ""
  }

  /** The field where `f ? ... : ''` renders it, and nothing otherwise. */
  function IfTruthy(f: Field): Field {
    if Truthy(f) then f else None
  }

  // ---------------------------------------------------------------------------
  // trim
  // ---------------------------------------------------------------------------

  /** ECMAScript WhiteSpace and LineTerminator code points, which `trim` removes. */
  predicate IsJsSpace(c: char) {
    c == '\t' || c == '\n' || c == '\U{B}' || c == '\U{C}' || c == '\r' || c == ' ' ||
    c == '\U{A0}' || c == '\U{1680}' || ('\U{2000}' <= c <= '\U{200A}') ||
    c == '\U{2028}' || c == '\U{2029}' || c == '\U{202F}' || c == '\U{205F}' ||
    c == '\U{3000}' || c == '\U{FEFF}'
  }

  function TrimStart(s: string): (r: string)
    ensures |r| <= |s| && r == s[|s| - |r|..]
    ensures forall i :: 0 <= i < |s| - |r| ==> IsJsSpace(s[i])
    ensures r != [] ==> !IsJsSpace(r[0])
  {
    if s != [] && IsJsSpace(s[0]) then TrimStart(s[1..]) else s
  }

  function TrimEnd(s: string): (r: string)
    ensures |r| <= |s| && r == s[..|r|]
    ensures forall i :: |r| <= i < |s| ==> IsJsSpace(s[i])
    ensures r != [] ==> !IsJsSpace(r[|r| - 1])
  {
    if s != [] && IsJsSpace(s[|s| - 1]) then TrimEnd(s[..|s| - 1]) else s
  }

  /** `s.trim()`. */
  function Trim(s: string): (r: string)
    ensures |r| <= |s|
    ensures r != [] ==> !IsJsSpace(r[0]) && !IsJsSpace(r[|r| - 1])
  {
    TrimEnd(TrimStart(s))
  }

  /**
   * What `trim` leaves: the piece of s between a white-space prefix and a
   * white-space suffix.
   */
  lemma {:induction false} TrimIsPiece(s: string)
    ensures var r := Trim(s);
            var a := |s| - |TrimStart(s)|;
            a + |r| <= |s| && r == s[a..a + |r|] &&
            (forall i :: 0 <= i < a ==> IsJsSpace(s[i])) &&
            (forall i :: a + |r| <= i < |s| ==> IsJsSpace(s[i]))
  {
    var t := TrimStart(s);
    PrefixOfSuffix(s, t, TrimEnd(t), |s| - |t|);
  }

  /** A white-space-ended prefix r of the suffix t of s, located in s. */
  lemma {:induction false} PrefixOfSuffix(s: string, t: string, r: string, a: nat)
    requires a <= |s| && t == s[a..] && |r| <= |t| && r == t[..|r|]
    requires forall i :: |r| <= i < |t| ==> IsJsSpace(t[i])
    ensures a + |r| <= |s| && r == s[a..a + |r|]
    ensures forall i :: a + |r| <= i < |s| ==> IsJsSpace(s[i])
  {
    forall i | a + |r| <= i < |s| ensures IsJsSpace(s[i]) {
      assert s[i] == t[i - a];
    }
  }

  /** The trimmed selection is empty exactly when the selection is all white space. */
  lemma TrimEmpty(s: string)
    ensures Trim(s) == [] <==> forall i :: 0 <= i < |s| ==> IsJsSpace(s[i])
  {
    TrimIsPiece(s);
    var a := |s| - |TrimStart(s)|;
    if Trim(s) != [] {
      assert Trim(s)[0] == s[a];
    }
  }

  // ---------------------------------------------------------------------------
  // indexOf
  // ---------------------------------------------------------------------------

  /** pat occurs in text at position k. */
  predicate OccursAt(text: string, pat: string, k: nat) {
    k + |pat| <= |text| && text[k..k + |pat|] == pat
  }

  function SearchFrom(text: string, pat: string, k: nat): (r: int)
    requires k <= |text|
    ensures r == -1 || (k <= r && OccursAt(text, pat, r))
    ensures forall j :: k <= j && (r == -1 || j < r) ==> !OccursAt(text, pat, j)
    decreases |text| - k
  {
    if k + |pat| > |text| then -1
    else if text[k..k + |pat|] == pat then k
    else if k == |text| then -1
    else SearchFrom(text, pat, k + 1)
  }

  /**
   * `text.indexOf(pat, from)`: the first occurrence of pat at or after
   * `from` (clamped to the length of text), or -1 when there is none.
   */
  function IndexOf(text: string, pat: string, from: nat): (r: int)
    ensures var start := if from < |text| then from else |text|;
            (r == -1 || (start <= r && OccursAt(text, pat, r))) &&
            forall j :: start <= j && (r == -1 || j < r) ==> !OccursAt(text, pat, j)
  {
    SearchFrom(text, pat, if from < |text| then from else |text|)
  }

  /** indexOf finds an occurrence that is known to exist, no later than it. */
  lemma IndexOfFinds(text: string, pat: string, from: nat, k: nat)
    requires from <= k && OccursAt(text, pat, k)
    ensures var r := IndexOf(text, pat, from); from <= r <= k && OccursAt(text, pat, r)
  {
  }

  // ---------------------------------------------------------------------------
  // filter(Boolean).join(sep)
  // ---------------------------------------------------------------------------

  /** `fields.filter(Boolean)`: the truthy fields, in order. */
  function Kept(fields: seq<Field>): (r: seq<string>)
    ensures |r| <= |fields|
    ensures forall i :: 0 <= i < |r| ==> r[i] != ""
    ensures |fields| == 1 ==> r == if Truthy(fields[0]) then [fields[0].value] else []
  {
    if fields == [] then []
    else (if Truthy(fields[0]) then [fields[0].value] else []) + Kept(fields[1..])
  }

  /**
   * Filtering keeps order: the kept values of two runs of fields are the kept
   * values of the first followed by those of the second. With the one-field
   * case of `Kept` this fixes the result for every list of fields.
   */
  lemma {:induction false} KeptAppend(a: seq<Field>, b: seq<Field>)
    ensures Kept(a + b) == Kept(a) + Kept(b)
  {
    if a != [] {
      assert (a + b)[1..] == a[1..] + b;
      KeptAppend(a[1..], b);
    } else {
      assert a + b == b;
    }
  }

  /** `parts.join(sep)`. */
  function Join(parts: seq<string>, sep: string): (r: string)
    ensures |parts| == 1 ==> r == parts[0]
  {
    if parts == [] then ""
    else if |parts| == 1 then parts[0]
    else parts[0] + sep + Join(parts[1..], sep)
  }

  /** Joining one more part adds the separator and the part. */
  lemma {:induction false} JoinAppend(parts: seq<string>, x: string, sep: string)
    requires parts != []
    ensures Join(parts + [x], sep) == Join(parts, sep) + sep + x
  {
    assert (parts + [x])[0] == parts[0];
    assert (parts + [x])[1..] == parts[1..] + [x];
    if |parts| > 1 {
      JoinAppend(parts[1..], x, sep);
    }
  }

  /** Joining non-empty parts gives the empty string only when there are no parts. */
  lemma {:induction false} JoinEmpty(parts: seq<string>, sep: string)
    requires forall i :: 0 <= i < |parts| ==> parts[i] != ""
    ensures Join(parts, sep) == "" <==> parts == []
  {
    if |parts| > 1 {
      assert |Join(parts, sep)| >= |parts[0]|;
    }
  }

  /** The phrase of the tooltip and the annotation: the truthy parts, comma separated. */
  function LocationText(city: Field, region: Field, country: Field): (r: string)
    ensures r == "" <==> !Truthy(city) && !Truthy(region) && !Truthy(country)
    ensures Truthy(city) && Truthy(region) && Truthy(country) ==>
              r == city.value + ", " + region.value + ", " + country.value
    ensures Truthy(city) && !Truthy(region) && !Truthy(country) ==> r == city.value
    ensures !Truthy(city) && !Truthy(region) && Truthy(country) ==> r == country.value
    ensures Truthy(city) && !Truthy(region) && Truthy(country) ==> r == city.value + ", " + country.value
    ensures !Truthy(city) && Truthy(region) && !Truthy(country) ==> r == region.value
    ensures Truthy(city) && Truthy(region) && !Truthy(country) ==> r == city.value + ", " + region.value
    ensures !Truthy(city) && Truthy(region) && Truthy(country) ==> r == region.value + ", " + country.value
  {
    var kept := Kept([city, region, country]);
    assert [city, region, country][1..] == [region, country];
    assert [region, country][1..] == [country];
    assert [country][1..] == [];
    var k3 := Kept([country]);
    assert k3 == (if Truthy(country) then [country.value] else []) + Kept([]);
    var k2 := Kept([region, country]);
    assert k2 == (if Truthy(region) then [region.value] else []) + k3;
    assert kept == (if Truthy(city) then [city.value] else []) + k2;
    JoinEmpty(kept, ", ");
    assert |kept| >= 2 ==> Join(kept, ", ") == kept[0] + ", " + Join(kept[1..], ", ");
    Join(kept, ", ")
  }
}
