/** Request validation: which texts the service lets through as scopes, subjects, role ids,
    permissions, display names, caller keys and secret references. */
module Identifiers {
  import opened AccessPolicy

  const MAX_SCOPE_KIND_BYTES := 128
  const MAX_SCOPE_ID_BYTES := 512
  const MAX_SUBJECT_BYTES := 512
  const MAX_ROLE_ID_BYTES := 128
  const MAX_ROLE_NAME_BYTES := 200
  const MAX_PERMISSION_BYTES := 200
  const MAX_PERMISSIONS_PER_ROLE := 256

  /** The length of a text in UTF-8 bytes. */
  function ByteLength(s: string): nat
  {
    if s == "" then 0 else ByteLength(s[..|s|-1]) + CharBytes(s[|s|-1])
  }

  function CharBytes(c: char): nat
  {
    var n := c as int;
    if n < 0x80 then 1 else if n < 0x800 then 2 else if n < 0x1_0000 then 3 else 4
  }

  predicate AsciiAlphanumeric(c: char) { '0' <= c <= '9' || 'A' <= c <= 'Z' || 'a' <= c <= 'z' }

  predicate OpaqueChar(c: char)
  {
    AsciiAlphanumeric(c) || c == '.' || c == '_' || c == '-' || c == ':' || c == '/'
  }

  predicate ValidOpaqueId(value: string, maximum: nat)
  {
    value != "" && ByteLength(value) <= maximum && forall i :: 0 <= i < |value| ==> OpaqueChar(value[i])
  }

  predicate ValidScopeKind(value: string)
  {
    && value != ""
    && ByteLength(value) <= MAX_SCOPE_KIND_BYTES
    && (forall i :: 0 <= i < |value| ==>
          'a' <= value[i] <= 'z' || '0' <= value[i] <= '9' || value[i] == '.' || value[i] == '_' || value[i] == '-')
    && AsciiAlphanumeric(value[0])
    && AsciiAlphanumeric(value[|value|-1])
  }

  predicate ValidScope(s: ScopeKey) { ValidScopeKind(s.kind) && ValidOpaqueId(s.id, MAX_SCOPE_ID_BYTES) }

  predicate ValidSubject(value: string) { ValidOpaqueId(value, MAX_SUBJECT_BYTES) }

  predicate ValidRoleId(value: string) { ValidOpaqueId(value, MAX_ROLE_ID_BYTES) }

  predicate ValidPermission(value: string) { ValidOpaqueId(value, MAX_PERMISSION_BYTES) && '.' in value }

  /** Unicode White_Space. */
  predicate Whitespace(c: char)
  {
    var n := c as int;
    || 0x09 <= n <= 0x0D || n == 0x20 || n == 0x85 || n == 0xA0 || n == 0x1680 || 0x2000 <= n <= 0x200A
    || n == 0x2028 || n == 0x2029 || n == 0x202F || n == 0x205F || n == 0x3000
  }

  /** Unicode Cc. */
  predicate ControlChar(c: char)
  {
    var n := c as int;
    n < 0x20 || 0x7F <= n < 0xA0
  }

  function Trim(s: string): string
  {
    if s == "" then ""
    else if Whitespace(s[0]) then Trim(s[1..])
    else if Whitespace(s[|s|-1]) then Trim(s[..|s|-1])
    else s
  }

  predicate ValidDisplayName(value: string)
  {
    var name := Trim(value);
    name != "" && ByteLength(name) <= MAX_ROLE_NAME_BYTES && forall i :: 0 <= i < |name| ==> !ControlChar(name[i])
  }

  /** The page limit, when both the limit and the cursor are acceptable. */
  function ValidDirectoryPage(limit: int, cursor: Option<string>): Option<nat>
  {
    if !(1 <= limit <= 100) || (cursor.Some? && !ValidRoleId(cursor.value)) then None else Some(limit)
  }

  function Split(s: string): (parts: seq<string>)
    ensures parts != []
  {
    if s == "" then [""]
    else
      var rest := Split(s[1..]);
      if s[0] == '/' then [""] + rest else [[s[0]] + rest[0]] + rest[1..]
  }

  predicate ValidIdentifier(value: string, maximum: nat) { ValidOpaqueId(value, maximum) && '/' !in value }

  predicate ValidInstanceKey(value: string)
  {
    var parts := Split(value);
    && 1 <= |parts| <= 2
    && ByteLength(value) <= 256
    && forall i :: 0 <= i < |parts| ==> ValidIdentifier(parts[i], 256)
  }

  predicate HasDoubleSlash(s: string)
  {
    exists i :: 0 <= i < |s| - 1 && s[i] == '/' && s[i+1] == '/'
  }

  predicate ValidSecretReference(s: string)
  {
    && s != ""
    && ByteLength(s) <= 256
    && s[0] != '/'
    && s[|s|-1] != '/'
    && !HasDoubleSlash(s)
    && (var parts := Split(s); forall i :: 0 <= i < |parts| ==> parts[i] != "." && parts[i] != "..")
    && ValidOpaqueId(s, 256)
  }

  // ----- Their grammars -----

  /** A non-empty text over the identifier alphabet, which is the opaque one without the slash. */
  predicate Segment(s: string)
  {
    s != "" && forall i :: 0 <= i < |s| ==> OpaqueChar(s[i]) && s[i] != '/'
  }

  function Join(parts: seq<string>): string
  {
    if parts == [] then "" else if |parts| == 1 then parts[0] else parts[0] + "/" + Join(parts[1..])
  }

  predicate Ascii(s: string) { forall i :: 0 <= i < |s| ==> s[i] as int < 0x80 }

  lemma {:induction false} AsciiByteLength(s: string)
    ensures |s| <= ByteLength(s)
    ensures Ascii(s) ==> ByteLength(s) == |s|
  {
    if s != "" {
      AsciiByteLength(s[..|s|-1]);
    }
  }

  predicate NoSlash(s: string) { '/' !in s }

  lemma JoinCons(part: string, parts: seq<string>)
    ensures parts != [] ==> Join([part] + parts) == part + "/" + Join(parts)
    ensures parts == [] ==> Join([part] + parts) == part
  {
    assert ([part] + parts)[1..] == parts;
  }

  predicate AllSlashless(parts: seq<string>) { forall i :: 0 <= i < |parts| ==> NoSlash(parts[i]) }

  lemma {:induction false} SplitJoins(s: string)
    ensures Join(Split(s)) == s
    ensures AllSlashless(Split(s))
  {
    if s != "" {
      SplitJoins(s[1..]);
      var rest := Split(s[1..]);
      assert s == [s[0]] + s[1..];
      if s[0] == '/' {
        JoinCons("", rest);
        assert NoSlash("");
      } else {
        var first := [s[0]] + rest[0];
        assert rest == [rest[0]] + rest[1..];
        JoinCons(rest[0], rest[1..]);
        JoinCons(first, rest[1..]);
        assert NoSlash(rest[0]) && NoSlash(first);
        PrependJoins(s[0], rest[0], Join(rest[1..]));
      }
    }
  }

  lemma PrependJoins(c: char, first: string, tail: string)
    ensures [c] + (first + "/" + tail) == [c] + first + "/" + tail
  {
  }

  lemma {:induction false} SplitOfSlashless(s: string)
    requires NoSlash(s)
    ensures Split(s) == [s]
  {
    if s != "" {
      assert NoSlash(s[1..]);
      SplitOfSlashless(s[1..]);
      assert s == [s[0]] + s[1..];
    }
  }

  lemma {:induction false} SplitAtSlash(a: string, b: string)
    requires NoSlash(a)
    ensures Split(a + "/" + b) == [a] + Split(b)
  {
    var s := a + "/" + b;
    if a == "" {
      assert s[1..] == b;
    } else {
      assert NoSlash(a[1..]);
      assert s[1..] == a[1..] + "/" + b;
      SplitAtSlash(a[1..], b);
      assert a == [a[0]] + a[1..];
      assert Split(s) == [[a[0]] + a[1..]] + Split(b);
    }
  }

  lemma {:induction false} JoinSplits(parts: seq<string>)
    requires parts != [] && forall i :: 0 <= i < |parts| ==> NoSlash(parts[i])
    ensures Split(Join(parts)) == parts
  {
    if |parts| == 1 {
      SplitOfSlashless(parts[0]);
    } else {
      JoinSplits(parts[1..]);
      SplitAtSlash(parts[0], Join(parts[1..]));
      assert parts == [parts[0]] + parts[1..];
    }
  }

  // An empty part after the first one.
  predicate LaterPartEmpty(s: string)
  {
    exists i :: 1 <= i < |Split(s)| && Split(s)[i] == ""
  }

  lemma DoubleSlashCons(c: char, t: string)
    ensures HasDoubleSlash([c] + t) <==> HasDoubleSlash(t) || (t != "" && c == '/' && t[0] == '/')
  {
    var s := [c] + t;
    if HasDoubleSlash(t) {
      var i :| 0 <= i < |t| - 1 && t[i] == '/' && t[i+1] == '/';
      assert s[i+1] == '/' && s[i+2] == '/';
    }
    if t != "" && c == '/' && t[0] == '/' {
      assert s[0] == '/' && s[0+1] == '/';
    }
    if i :| 0 <= i < |s| - 1 && s[i] == '/' && s[i+1] == '/' {
      if i > 0 { assert t[i-1] == '/' && t[i-1+1] == '/'; }
    }
  }

  lemma {:induction false} EmptyPartsAreSlashes(s: string)
    ensures LaterPartEmpty(s) <==> (s != "" && s[|s|-1] == '/') || HasDoubleSlash(s)
  {
    if s != "" {
      var t := s[1..];
      EmptyPartsAreSlashes(t);
      assert s == [s[0]] + t;
      DoubleSlashCons(s[0], t);
      FirstPartEmpty(t);
      LaterPartCons(s);
    }
  }

  lemma LaterPartCons(s: string)
    requires s != ""
    ensures LaterPartEmpty(s) <==> LaterPartEmpty(s[1..]) || (s[0] == '/' && Split(s[1..])[0] == "")
  {
    var rest := Split(s[1..]);
    var shift := if s[0] == '/' then 1 else 0;
    assert forall i :: 1 <= i < |rest| ==> Split(s)[i + shift] == rest[i];
    if i :| 1 <= i < |rest| && rest[i] == "" {
      assert Split(s)[i + shift] == "";
    }
    if s[0] == '/' && rest[0] == "" {
      assert Split(s)[1] == "";
    }
    if i :| 1 <= i < |Split(s)| && Split(s)[i] == "" {
      assert rest[i - shift] == "";
    }
  }

  lemma FirstPartEmpty(s: string)
    ensures Split(s)[0] == "" <==> s == "" || s[0] == '/'
  {
  }

  predicate AllOpaque(s: string) { forall i :: 0 <= i < |s| ==> OpaqueChar(s[i]) }

  lemma OpaqueAsciiIsValid(s: string, maximum: nat)
    requires s != "" && |s| <= maximum && AllOpaque(s)
    ensures ValidOpaqueId(s, maximum)
  {
    AsciiByteLength(s);
  }

  lemma AllOpaqueCons(c: char, s: string)
    ensures AllOpaque([c] + s) <==> OpaqueChar(c) && AllOpaque(s)
  {
    if AllOpaque([c] + s) {
      assert ([c] + s)[0] == c;
      assert forall i :: 0 <= i < |s| ==> s[i] == ([c] + s)[i+1];
    }
  }

  predicate AllPartsOpaque(parts: seq<string>) { forall k :: 0 <= k < |parts| ==> AllOpaque(parts[k]) }

  lemma AllPartsOpaqueCons(part: string, parts: seq<string>)
    ensures AllPartsOpaque([part] + parts) <==> AllOpaque(part) && AllPartsOpaque(parts)
  {
    if AllPartsOpaque([part] + parts) {
      assert ([part] + parts)[0] == part;
      assert forall k :: 0 <= k < |parts| ==> parts[k] == ([part] + parts)[k+1];
    }
  }

  lemma {:induction false} PartsCoverChars(s: string)
    ensures AllOpaque(s) <==> AllPartsOpaque(Split(s))
  {
    if s != "" {
      var rest := Split(s[1..]);
      PartsCoverChars(s[1..]);
      AllOpaqueCons(s[0], s[1..]);
      assert s == [s[0]] + s[1..];
      if s[0] == '/' {
        AllPartsOpaqueCons("", rest);
        assert AllOpaque("");
      } else {
        AllOpaqueCons(s[0], rest[0]);
        AllPartsOpaqueCons([s[0]] + rest[0], rest[1..]);
        AllPartsOpaqueCons(rest[0], rest[1..]);
        assert rest == [rest[0]] + rest[1..];
      }
    } else {
      assert AllOpaque("") && Split(s) == [""];
    }
  }

  predicate AllSegments(parts: seq<string>) { forall i :: 0 <= i < |parts| ==> Segment(parts[i]) }

  ghost predicate JoinsSegments(parts: seq<string>, s: string)
  {
    parts != [] && Join(parts) == s && AllSegments(parts) && "." !in parts && ".." !in parts
  }

  /** A secret reference is a slash-separated list of segments, none of them `.` or `..`, of at
      most 256 characters in all. */
  lemma SecretReferenceGrammar(s: string)
    ensures ValidSecretReference(s) <==> |s| <= 256 && exists parts :: JoinsSegments(parts, s)
  {
    if ValidSecretReference(s) {
      SecretReferenceSplits(s);
      AsciiByteLength(s);
      assert JoinsSegments(Split(s), s);
    }
    if |s| <= 256 && exists parts :: JoinsSegments(parts, s) {
      var parts :| JoinsSegments(parts, s);
      SegmentsAreSecretReference(s, parts);
    }
  }

  lemma SecretReferenceSplits(s: string)
    requires ValidSecretReference(s)
    ensures JoinsSegments(Split(s), s)
  {
    SplitJoins(s);
    EmptyPartsAreSlashes(s);
    FirstPartEmpty(s);
    PartsCoverChars(s);
    var parts := Split(s);
    assert AllOpaque(s) && !LaterPartEmpty(s) && parts[0] != "";
    forall k | 0 <= k < |parts| ensures Segment(parts[k]) {
      assert NoSlash(parts[k]) && AllOpaque(parts[k]);
    }
  }

  lemma SegmentsAreSecretReference(s: string, parts: seq<string>)
    requires |s| <= 256 && JoinsSegments(parts, s)
    ensures ValidSecretReference(s)
  {
    forall i | 0 <= i < |parts| ensures NoSlash(parts[i]) && AllOpaque(parts[i]) { assert Segment(parts[i]); }
    JoinSplits(parts);
    assert !LaterPartEmpty(s) by {
      if i :| 1 <= i < |parts| && parts[i] == "" { assert Segment(parts[i]); }
    }
    EmptyPartsAreSlashes(s);
    assert Segment(parts[0]);
    FirstPartEmpty(s);
    PartsCoverChars(s);
    OpaqueAsciiIsValid(s, 256);
  }

  lemma SegmentIsIdentifier(s: string)
    ensures ValidIdentifier(s, 256) <==> Segment(s) && |s| <= 256
  {
    AsciiByteLength(s);
    if Segment(s) {
      assert Ascii(s);
    }
    if ValidIdentifier(s, 256) {
      assert Ascii(s);
      assert forall i :: 0 <= i < |s| ==> s[i] in s;
    }
  }

  /** A caller key is one segment, or two separated by a slash, of at most 256 characters in all. */
  lemma InstanceKeyGrammar(s: string)
    ensures ValidInstanceKey(s) <==>
              |s| <= 256 && (Segment(s) || exists a, b :: Segment(a) && Segment(b) && s == a + "/" + b)
  {
    if ValidInstanceKey(s) {
      InstanceKeySplits(s);
    }
    if |s| <= 256 && Segment(s) {
      SplitOfSlashless(s);
      SegmentIsIdentifier(s);
      AsciiByteLength(s);
    }
    if |s| <= 256 && exists a, b :: Segment(a) && Segment(b) && s == a + "/" + b {
      var a, b :| Segment(a) && Segment(b) && s == a + "/" + b;
      TwoSegmentsAreInstanceKey(a, b);
    }
  }

  lemma InstanceKeySplits(s: string)
    requires ValidInstanceKey(s)
    ensures |s| <= 256 && (Segment(s) || exists a, b :: Segment(a) && Segment(b) && s == a + "/" + b)
  {
    var parts := Split(s);
    SplitJoins(s);
    AsciiByteLength(s);
    forall i | 0 <= i < |parts| ensures Segment(parts[i]) { SegmentIsIdentifier(parts[i]); }
    if |parts| == 2 {
      assert parts[1..] == [parts[1]];
      assert s == parts[0] + "/" + parts[1];
    }
  }

  lemma TwoSegmentsAreInstanceKey(a: string, b: string)
    requires Segment(a) && Segment(b) && |a + "/" + b| <= 256
    ensures ValidInstanceKey(a + "/" + b)
  {
    var s := a + "/" + b;
    SplitAtSlash(a, b);
    SplitOfSlashless(b);
    SegmentIsIdentifier(a);
    SegmentIsIdentifier(b);
    AsciiByteLength(s);
    assert Split(s) == [a, b];
    assert Ascii(s);
  }

  /** An opaque identifier is a non-empty text over the alphabet; its bound in bytes is a bound
      on its characters, because the alphabet is ASCII. */
  lemma OpaqueIdGrammar(s: string, maximum: nat)
    ensures ValidOpaqueId(s, maximum) <==> 1 <= |s| <= maximum && AllOpaque(s)
    ensures ValidOpaqueId(s, maximum) ==> Ascii(s)
  {
    AsciiByteLength(s);
    if AllOpaque(s) {
      assert Ascii(s);
    }
  }

  predicate LowerAlphanumeric(c: char) { 'a' <= c <= 'z' || '0' <= c <= '9' }

  /** A scope kind is at most 128 lower-case letters, digits and `.`, `_`, `-`, beginning and
      ending with a letter or digit. */
  lemma ScopeKindGrammar(s: string)
    ensures ValidScopeKind(s) <==>
              && 1 <= |s| <= 128
              && (forall i :: 0 <= i < |s| ==> LowerAlphanumeric(s[i]) || s[i] in "._-")
              && LowerAlphanumeric(s[0]) && LowerAlphanumeric(s[|s|-1])
  {
    AsciiByteLength(s);
    if 1 <= |s| && forall i :: 0 <= i < |s| ==> LowerAlphanumeric(s[i]) || s[i] in "._-" {
      assert Ascii(s);
    }
  }

  // ----- Display names -----

  predicate AllWhitespace(s: string) { forall i :: 0 <= i < |s| ==> Whitespace(s[i]) }

  /** White space at either end. */
  predicate Padded(s: string) { s != "" && (Whitespace(s[0]) || Whitespace(s[|s|-1])) }

  // The white space in front, and the white space at the end.
  function Leading(s: string): string
  {
    if s != "" && Whitespace(s[0]) then [s[0]] + Leading(s[1..]) else ""
  }

  function Trailing(s: string): string
  {
    if s != "" && Whitespace(s[|s|-1]) then Trailing(s[..|s|-1]) + [s[|s|-1]] else ""
  }

  function OuterBytes(s: string): nat { ByteLength(Leading(s)) + ByteLength(Trailing(s)) }

  lemma AllWhitespaceEnds(c: char, s: string, d: char)
    requires AllWhitespace(s)
    ensures Whitespace(c) ==> AllWhitespace([c] + s)
    ensures Whitespace(d) ==> AllWhitespace(s + [d])
  {
  }

  lemma Regroup(c: char, a: string, b: string, e: string)
    ensures [c] + (a + b + e) == ([c] + a) + b + e
    ensures (a + b + e) + [c] == a + b + (e + [c])
  {
  }

  /** The text between white space is what trimming leaves, and has none at its ends. */
  ghost predicate Strips(s: string, before: string, after: string)
  {
    s == before + Trim(s) + after && AllWhitespace(before) && AllWhitespace(after) && !Padded(Trim(s))
  }

  lemma StripFront(s: string, before: string, after: string)
    requires s != "" && Whitespace(s[0]) && Strips(s[1..], before, after)
    ensures Strips(s, [s[0]] + before, after)
  {
    assert Trim(s) == Trim(s[1..]);
    assert s == [s[0]] + s[1..];
    Regroup(s[0], before, Trim(s), after);
    AllWhitespaceEnds(s[0], before, s[0]);
  }

  lemma StripBack(s: string, before: string, after: string)
    requires s != "" && !Whitespace(s[0]) && Whitespace(s[|s|-1]) && Strips(s[..|s|-1], before, after)
    ensures Strips(s, before, after + [s[|s|-1]])
  {
    var last := s[|s|-1];
    assert Trim(s) == Trim(s[..|s|-1]);
    assert s == s[..|s|-1] + [last];
    Regroup(last, before, Trim(s), after);
    AllWhitespaceEnds(last, after, last);
  }

  /** Trimming takes white space off both ends, and all of it. */
  lemma {:induction false} TrimMeaning(s: string) returns (before: string, after: string)
    ensures Strips(s, before, after)
    decreases |s|
  {
    if s != "" && Whitespace(s[0]) {
      before, after := TrimMeaning(s[1..]);
      StripFront(s, before, after);
      before := [s[0]] + before;
    } else if s != "" && Whitespace(s[|s|-1]) {
      before, after := TrimMeaning(s[..|s|-1]);
      StripBack(s, before, after);
      after := after + [s[|s|-1]];
    } else {
      before, after := "", "";
      assert s == "" + s + "";
    }
  }

  lemma {:induction false} LeadingIs(before: string, rest: string)
    requires AllWhitespace(before) && rest != "" && !Whitespace(rest[0])
    ensures Leading(before + rest) == before
  {
    if before == "" {
      assert before + rest == rest;
    } else {
      assert (before + rest)[1..] == before[1..] + rest;
      LeadingIs(before[1..], rest);
      assert before == [before[0]] + before[1..];
    }
  }

  lemma {:induction false} TrailingIs(rest: string, after: string)
    requires AllWhitespace(after) && rest != "" && !Whitespace(rest[|rest|-1])
    ensures Trailing(rest + after) == after
  {
    if after == "" {
      assert rest + after == rest;
    } else {
      var init := after[..|after|-1];
      assert (rest + after)[..|rest + after|-1] == rest + init;
      TrailingIs(rest, init);
      assert after == init + [after[|after|-1]];
    }
  }

  lemma {:induction false} ByteLengthAdds(a: string, b: string)
    ensures ByteLength(a + b) == ByteLength(a) + ByteLength(b)
  {
    if b == "" {
      assert a + b == a;
    } else {
      assert (a + b)[..|a + b|-1] == a + b[..|b|-1];
      ByteLengthAdds(a, b[..|b|-1]);
    }
  }

  /** A text that is not all white space is its trimmed text between its outer white space. */
  lemma TrimBetween(s: string)
    requires Trim(s) != ""
    ensures s == Leading(s) + Trim(s) + Trailing(s)
  {
    var before, after := TrimMeaning(s);
    assert s == before + (Trim(s) + after);
    LeadingIs(before, Trim(s) + after);
    TrailingIs(before + Trim(s), after);
  }

  lemma UnpaddedIsTrimmed(s: string)
    ensures !Padded(s) <==> Trim(s) == s
  {
    if Trim(s) == s {
      var before, after := TrimMeaning(s);
    }
  }

  /** How long an accepted name is: its trimmed text has at most 200 bytes, and the rest is the
      white space around it. So the name itself is within the bound exactly when that white space
      fits into what the trimmed text leaves, and a name without it always is. */
  lemma AcceptedNameLength(name: string)
    requires ValidDisplayName(name)
    ensures ByteLength(name) == ByteLength(Trim(name)) + OuterBytes(name)
            && ByteLength(Trim(name)) <= MAX_ROLE_NAME_BYTES
    ensures ByteLength(name) <= MAX_ROLE_NAME_BYTES
            <==> OuterBytes(name) <= MAX_ROLE_NAME_BYTES - ByteLength(Trim(name))
    ensures !Padded(name) <==> OuterBytes(name) == 0
    ensures !Padded(name) ==>
              ByteLength(name) <= MAX_ROLE_NAME_BYTES && forall i :: 0 <= i < |name| ==> !ControlChar(name[i])
  {
    TrimBetween(name);
    UnpaddedIsTrimmed(name);
    ByteLengthAdds(Leading(name) + Trim(name), Trailing(name));
    ByteLengthAdds(Leading(name), Trim(name));
    AsciiByteLength(Leading(name));
    AsciiByteLength(Trailing(name));
  }

  function Spaces(n: nat): string { if n == 0 then "" else " " + Spaces(n - 1) }

  lemma OneMoreSpace(text: string)
    ensures Trim(" " + text) == Trim(text) && ByteLength(" " + text) == 1 + ByteLength(text)
  {
    assert (" " + text)[1..] == text;
    ByteLengthAdds(" ", text);
    assert ByteLength(" ") == 1 by { assert " "[..0] == ""; }
  }

  lemma SpacesInFront(n: nat, text: string)
    ensures n == 0 ==> Spaces(n) + text == text
    ensures n > 0 ==> Spaces(n) + text == " " + (Spaces(n - 1) + text)
  {
  }

  lemma {:induction false} SpacesAreTrimmed(n: nat, text: string)
    requires !Padded(text)
    ensures Trim(Spaces(n) + text) == text && ByteLength(Spaces(n) + text) == n + ByteLength(text)
  {
    SpacesInFront(n, text);
    if n == 0 {
      UnpaddedIsTrimmed(text);
    } else {
      SpacesAreTrimmed(n - 1, text);
      OneMoreSpace(Spaces(n - 1) + text);
    }
  }

  /** The whole failing family: any accepted text, padded with any number of spaces, is accepted,
      and exceeds the bound as soon as the spaces exceed what the text leaves. */
  lemma PaddingIsAccepted(text: string, n: nat)
    requires ValidDisplayName(text) && !Padded(text)
    ensures ValidDisplayName(Spaces(n) + text)
    ensures ByteLength(Spaces(n) + text) > MAX_ROLE_NAME_BYTES <==> n > MAX_ROLE_NAME_BYTES - ByteLength(text)
  {
    SpacesAreTrimmed(n, text);
    UnpaddedIsTrimmed(text);
  }

  lemma BootstrapRoleIdIsValid()
    ensures ValidRoleId(BOOTSTRAP_ROLE_ID)
  {
    assert AllOpaque(BOOTSTRAP_ROLE_ID);
    OpaqueAsciiIsValid(BOOTSTRAP_ROLE_ID, MAX_ROLE_ID_BYTES);
  }

  lemma RolesManageIsValid()
    ensures ValidPermission(ROLES_MANAGE)
  {
    assert AllOpaque(ROLES_MANAGE);
    OpaqueAsciiIsValid(ROLES_MANAGE, MAX_PERMISSION_BYTES);
    assert ROLES_MANAGE[14] == '.';
  }

  lemma BindingsManageIsValid()
    ensures ValidPermission(BINDINGS_MANAGE)
  {
    assert AllOpaque(BINDINGS_MANAGE);
    OpaqueAsciiIsValid(BINDINGS_MANAGE, MAX_PERMISSION_BYTES);
    assert BINDINGS_MANAGE[14] == '.';
  }

  // ----- The validators in literals -----

  const LOWER := "0123456789" + "abcdefghijklmnopqrstuvwxyz"
  const ALPHABET := LOWER + "ABCDEFGHIJKLMNOPQRSTUVWXYZ" + "._-:/"

  /** Between one and `maximum` characters of an alphabet. */
  predicate Word(s: string, maximum: nat, alphabet: string)
  {
    1 <= |s| <= maximum && forall i :: 0 <= i < |s| ==> s[i] in alphabet
  }

  /** A scope kind: a word of at most 128 characters that begins and ends with none of `.`, `_`, `-`. */
  predicate KindWord(s: string)
  {
    Word(s, 128, LOWER + "._-") && s[0] in LOWER && s[|s|-1] in LOWER
  }

  lemma DigitsAre(c: char)
    ensures '0' <= c <= '9' <==> c in "0123456789"
  {
  }

  lemma LowerAre(c: char)
    ensures 'a' <= c <= 'z' <==> c in "abcdefghijklmnopqrstuvwxyz"
  {
  }

  lemma UpperAre(c: char)
    ensures 'A' <= c <= 'Z' <==> c in "ABCDEFGHIJKLMNOPQRSTUVWXYZ"
  {
  }

  lemma AlphabetAre(c: char)
    ensures OpaqueChar(c) <==> c in ALPHABET
    ensures LowerAlphanumeric(c) <==> c in LOWER
    ensures LowerAlphanumeric(c) || c in "._-" <==> c in LOWER + "._-"
  {
    DigitsAre(c);
    LowerAre(c);
    UpperAre(c);
  }

  /** Every identifier of a request, in literals: scope kinds and ids, subjects, role ids and
      permissions, each with its alphabet and its number of characters. */
  lemma IdentifierWords(s: string)
    ensures ValidScopeKind(s) <==> KindWord(s)
    ensures ValidOpaqueId(s, MAX_SCOPE_ID_BYTES) <==> Word(s, 512, ALPHABET)
    ensures ValidSubject(s) <==> Word(s, 512, ALPHABET)
    ensures ValidRoleId(s) <==> Word(s, 128, ALPHABET)
    ensures ValidPermission(s) <==> Word(s, 200, ALPHABET) && '.' in s
  {
    forall i | 0 <= i < |s| ensures OpaqueChar(s[i]) <==> s[i] in ALPHABET {
      AlphabetAre(s[i]);
    }
    OpaqueWord(s, 512);
    OpaqueWord(s, 128);
    OpaqueWord(s, 200);
    KindIsWord(s);
  }

  lemma OpaqueWord(s: string, maximum: nat)
    ensures ValidOpaqueId(s, maximum) <==> Word(s, maximum, ALPHABET)
  {
    forall i | 0 <= i < |s| ensures OpaqueChar(s[i]) <==> s[i] in ALPHABET {
      AlphabetAre(s[i]);
    }
    OpaqueIdGrammar(s, maximum);
  }

  lemma KindIsWord(s: string)
    ensures ValidScopeKind(s) <==> KindWord(s)
  {
    forall i | 0 <= i < |s|
      ensures LowerAlphanumeric(s[i]) <==> s[i] in LOWER
      ensures LowerAlphanumeric(s[i]) || s[i] in "._-" <==> s[i] in LOWER + "._-"
    {
      AlphabetAre(s[i]);
    }
    ScopeKindGrammar(s);
  }

  /** The segments of caller keys and secret references, in literals. */
  lemma SegmentWords(s: string)
    ensures Segment(s) <==>
              s != "" && forall i :: 0 <= i < |s| ==> s[i] in LOWER + "ABCDEFGHIJKLMNOPQRSTUVWXYZ" + "._-:"
  {
    forall i | 0 <= i < |s|
      ensures OpaqueChar(s[i]) && s[i] != '/' <==> s[i] in LOWER + "ABCDEFGHIJKLMNOPQRSTUVWXYZ" + "._-:"
    {
      AlphabetAre(s[i]);
    }
  }

  /** A directory page is asked for with a limit of 1 to 100, and a cursor, if any, that is a role id. */
  lemma DirectoryPageWords(limit: int, cursor: Option<string>)
    ensures ValidDirectoryPage(limit, cursor) ==
              if 1 <= limit <= 100 && (cursor.Some? ==> Word(cursor.value, 128, ALPHABET)) then Some(limit) else None
  {
    if cursor.Some? {
      IdentifierWords(cursor.value);
    }
  }

  // How many characters have at least the given code.
  function CountFrom(s: string, code: nat): nat
  {
    if s == "" then 0 else CountFrom(s[..|s|-1], code) + (if s[|s|-1] as int >= code then 1 else 0)
  }

  /** The UTF-8 length: one byte per character, one more from U+0080, from U+0800 and from U+10000. */
  lemma {:induction false} Utf8Length(s: string)
    ensures ByteLength(s) == |s| + CountFrom(s, 0x80) + CountFrom(s, 0x800) + CountFrom(s, 0x1_0000)
  {
    if s != "" {
      Utf8Length(s[..|s|-1]);
    }
  }

  // The characters with the Unicode property White_Space.
  const WHITE_SPACE :=
    "\U{9}\U{A}\U{B}\U{C}\U{D}\U{20}\U{85}\U{A0}\U{1680}\U{2000}\U{2001}\U{2002}\U{2003}\U{2004}\U{2005}"
    + "\U{2006}\U{2007}\U{2008}\U{2009}\U{200A}\U{2028}\U{2029}\U{202F}\U{205F}\U{3000}"

  lemma WhiteSpaceIs(c: char)
    ensures Whitespace(c) <==> c in WHITE_SPACE
  {
  }

  /** A display name: white space around a text that has none at its ends, no control character and
      at most 200 bytes in UTF-8. */
  ghost predicate NameWord(s: string)
  {
    exists before: string, core: string, after: string ::
      && s == before + core + after && core != ""
      && (forall i :: 0 <= i < |before| ==> before[i] in WHITE_SPACE)
      && (forall i :: 0 <= i < |after| ==> after[i] in WHITE_SPACE)
      && core[0] !in WHITE_SPACE && core[|core|-1] !in WHITE_SPACE
      && |core| + CountFrom(core, 0x80) + CountFrom(core, 0x800) + CountFrom(core, 0x1_0000) <= 200
      && (forall i :: 0 <= i < |core| ==> !(core[i] as int <= 0x1F || 0x7F <= core[i] as int <= 0x9F))
  }

  lemma DisplayNameWords(s: string)
    ensures ValidDisplayName(s) <==> NameWord(s)
  {
    if ValidDisplayName(s) {
      NameSplits(s);
    }
    if NameWord(s) {
      var before, core, after :|
        && s == before + core + after && core != ""
        && (forall i :: 0 <= i < |before| ==> before[i] in WHITE_SPACE)
        && (forall i :: 0 <= i < |after| ==> after[i] in WHITE_SPACE)
        && core[0] !in WHITE_SPACE && core[|core|-1] !in WHITE_SPACE
        && |core| + CountFrom(core, 0x80) + CountFrom(core, 0x800) + CountFrom(core, 0x1_0000) <= 200
        && (forall i :: 0 <= i < |core| ==> !(core[i] as int <= 0x1F || 0x7F <= core[i] as int <= 0x9F));
      WhiteSpaceAll(before);
      WhiteSpaceAll(after);
      WhiteSpaceIs(core[0]);
      WhiteSpaceIs(core[|core|-1]);
      TrimIsCore(before, core, after);
      Utf8Length(core);
    }
  }

  lemma WhiteSpaceAll(s: string)
    ensures AllWhitespace(s) <==> forall i :: 0 <= i < |s| ==> s[i] in WHITE_SPACE
  {
    forall i | 0 <= i < |s| ensures Whitespace(s[i]) <==> s[i] in WHITE_SPACE {
      WhiteSpaceIs(s[i]);
    }
  }

  lemma NameSplits(s: string)
    requires ValidDisplayName(s)
    ensures NameWord(s)
  {
    var core := Trim(s);
    var before, after := TrimMeaning(s);
    WhiteSpaceAll(before);
    WhiteSpaceAll(after);
    WhiteSpaceIs(core[0]);
    WhiteSpaceIs(core[|core|-1]);
    Utf8Length(core);
    assert s == before + core + after;
  }

  /** There is only one way to take the outer white space off. */
  lemma TrimIsCore(before: string, core: string, after: string)
    requires AllWhitespace(before) && AllWhitespace(after)
    requires core != "" && !Whitespace(core[0]) && !Whitespace(core[|core|-1])
    ensures Trim(before + core + after) == core
  {
    var s := before + core + after;
    assert s == before + (core + after);
    LeadingIs(before, core + after);
    TrailingIs(before + core, after);
    SomethingRemains(s, |before|);
    TrimBetween(s);
    assert s == before + Trim(s) + after;
    assert |Trim(s)| == |core|;
    assert Trim(s) == s[|before|..|before| + |core|] == core;
  }

  lemma {:induction false} SomethingRemains(s: string, k: nat)
    requires k < |s| && !Whitespace(s[k])
    ensures Trim(s) != ""
    decreases |s|
  {
    if Whitespace(s[0]) {
      SomethingRemains(s[1..], k - 1);
    } else if Whitespace(s[|s|-1]) {
      SomethingRemains(s[..|s|-1], k);
    }
  }
}
