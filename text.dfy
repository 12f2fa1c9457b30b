/** String.prototype.trim, which every free-text field of the forms goes
    through before it is checked or stored. */
module Text {

  /** The characters ECMAScript's trim removes: WhiteSpace (tab, vertical tab,
      form feed, no-break space, byte-order mark and the space separators of
      category Zs) and LineTerminator (line feed, carriage return, line and
      paragraph separators). */
  predicate IsSpace(c: char) {
    c == '\t' || c == '\n' || c == '\U{B}' || c == '\U{C}' || c == '\r' ||
    c == ' ' || c == '\U{A0}' || c == '\U{1680}' ||
    ('\U{2000}' <= c <= '\U{200A}') ||
    c == '\U{2028}' || c == '\U{2029}' || c == '\U{202F}' || c == '\U{205F}' ||
    c == '\U{3000}' || c == '\U{FEFF}'
  }

  /** The index of the first character of `s` that is not a space (|s| if none). */
  function LeadingSpaces(s: string): (i: nat)
    ensures i <= |s|
    ensures forall k :: 0 <= k < i ==> IsSpace(s[k])
    ensures i < |s| ==> !IsSpace(s[i])
  {
    if s == [] || !IsSpace(s[0]) then 0 else 1 + LeadingSpaces(s[1..])
  }

  /** The index just past the last character of `s` that is not a space (0 if none). */
  function TrailingStart(s: string): (j: nat)
    ensures j <= |s|
    ensures forall k :: j <= k < |s| ==> IsSpace(s[k])
    ensures j > 0 ==> !IsSpace(s[j - 1])
  {
    if s == [] || !IsSpace(s[|s| - 1]) then |s| else TrailingStart(s[..|s| - 1])
  }

  /** `s` with its leading and trailing spaces removed. */
  function Trim(s: string): (r: string)
    ensures |r| <= |s|
    ensures r == "" || (!IsSpace(r[0]) && !IsSpace(r[|r| - 1]))
    ensures var i := LeadingSpaces(s);
              i + |r| <= |s| && r == s[i..i + |r|] &&
              forall k :: i + |r| <= k < |s| ==> IsSpace(s[k])
  {
    var t := s[LeadingSpaces(s)..];
    var u := t[..TrailingStart(t)];
    assert u == s[LeadingSpaces(s)..LeadingSpaces(s) + |u|];
    u
  }

  /** A string that is empty once trimmed consists of spaces only. */
  lemma TrimEmptyIffAllSpaces(s: string)
    ensures Trim(s) == "" <==> forall k :: 0 <= k < |s| ==> IsSpace(s[k])
  {
  }

  /** Text that neither starts nor ends with a space is left as it is. */
  lemma TrimKeepsTrimmed(s: string)
    requires s == "" || (!IsSpace(s[0]) && !IsSpace(s[|s| - 1]))
    ensures Trim(s) == s
  {
    if s != "" {
      assert s[0..] == s;
      assert s[..|s|] == s;
    }
  }

  /** Trimming twice is trimming once. */
  lemma TrimIdempotent(s: string)
    ensures Trim(Trim(s)) == Trim(s)
  {
    var r := Trim(s);
    if r != "" {
      assert LeadingSpaces(r) == 0;
      assert r[0..] == r;
      assert TrailingStart(r) == |r|;
      assert r[..|r|] == r;
    }
  }
}
