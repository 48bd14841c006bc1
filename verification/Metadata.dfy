/**
 * pkg/resource/resourcemetadata.go: the identity of an object and the key under which the inventory stores it.
 *
 * The key pattern is kept in the shape it has in the source (a starred class followed by an optional
 * alphanumeric) as the reference; the parser cuts at underscores, and the two are proved to agree.
 */
module Metadata {
  import opened Wrappers
  import opened Text

  datatype ObjectMetadata = ObjectMetadata(name: string, ns: string, group: string, kind: string)

  const EMPTY_METADATA := ObjectMetadata("", "", "", "")

  // ----- the key pattern -----

  /** [[:alnum:]] */
  predicate IsAlnum(c: char) {
    'a' <= c <= 'z' || 'A' <= c <= 'Z' || '0' <= c <= '9'
  }

  /** [[:alnum:]-.] */
  predicate IsNamespaceChar(c: char) {
    IsAlnum(c) || c == '-' || c == '.'
  }

  /** [[:alnum:]-._] */
  predicate IsNameChar(c: char) {
    IsNamespaceChar(c) || c == '_'
  }

  ghost predicate StarThenOptionalAlnum(s: string, class_: char -> bool) {
    exists k :: 0 <= k <= |s| && StarEndsAt(s, class_, k)
  }

  ghost predicate StarEndsAt(s: string, class_: char -> bool, k: nat)
    requires k <= |s|
  {
    All(s[..k], class_) && (k == |s| || (k + 1 == |s| && IsAlnum(s[k])))
  }

  /** namespaceChars and groupChars */
  ghost predicate NamespacePattern(s: string) {
    StarThenOptionalAlnum(s, IsNamespaceChar)
  }

  /** nameChars */
  ghost predicate NamePattern(s: string) {
    s != "" && IsAlnum(s[0]) && StarThenOptionalAlnum(s[1..], IsNameChar)
  }

  /** kindChars */
  ghost predicate KindPattern(s: string) {
    All(s, IsAlnum)
  }

  /** One way in which the anchored pattern can match `s`, with its four capture groups. */
  ghost predicate Matches(s: string, ns: string, rawName: string, group: string, kind: string) {
    && s == Key(ns, rawName, group, kind)
    && NamespacePattern(ns) && NamePattern(rawName) && NamespacePattern(group) && KindPattern(kind)
  }

  function Key(ns: string, rawName: string, group: string, kind: string): string {
    ns + "_" + rawName + "_" + group + "_" + kind
  }

  lemma NamespacePatternIsClass(s: string)
    ensures NamespacePattern(s) <==> All(s, IsNamespaceChar)
  {
    if NamespacePattern(s) {
      var k :| 0 <= k <= |s| && StarEndsAt(s, IsNamespaceChar, k);
      forall i | 0 <= i < |s| ensures IsNamespaceChar(s[i]) {
        if i < k { assert s[..k][i] == s[i]; }
      }
    }
    if All(s, IsNamespaceChar) {
      assert s[..|s|] == s;
      assert StarEndsAt(s, IsNamespaceChar, |s|);
    }
  }

  predicate IsRawName(s: string) {
    s != "" && IsAlnum(s[0]) && All(s, IsNameChar)
  }

  lemma NamePatternIsClass(s: string)
    ensures NamePattern(s) <==> IsRawName(s)
  {
    if NamePattern(s) {
      var t := s[1..];
      var k :| 0 <= k <= |t| && StarEndsAt(t, IsNameChar, k);
      forall i | 0 <= i < |s| ensures IsNameChar(s[i]) {
        if i > 0 {
          assert s[i] == t[i - 1];
          if i - 1 < k { assert t[..k][i - 1] == t[i - 1]; }
        }
      }
    }
    if IsRawName(s) {
      var t := s[1..];
      assert t[..|t|] == t;
      assert StarEndsAt(t, IsNameChar, |t|);
    }
  }

  // ----- printing and parsing -----

  /** ObjectMetadata.ToString */
  function ToString(m: ObjectMetadata): string {
    Key(m.ns, ReplaceAll(m.name, ":", "__"), m.group, m.kind)
  }

  /** The capture groups of the pattern: cut once at the first and twice at the last underscore. */
  function Capture(s: string): Option<(string, string, string, string)> {
    match CutFirst(s, '_')
    case None => None
    case Some((ns, rest)) =>
      match CutLast(rest, '_')
      case None => None
      case Some((rest', kind)) =>
        match CutLast(rest', '_')
        case None => None
        case Some((rawName, group)) =>
          if All(ns, IsNamespaceChar) && IsRawName(rawName) && All(group, IsNamespaceChar) && All(kind, IsAlnum)
          then Some((ns, rawName, group, kind)) else None
  }

  /** ObjectMetadataFromString; `None` stands for `(false, emptyMetadata)`. */
  function ObjectMetadataFromString(s: string): Option<ObjectMetadata> {
    match Capture(s)
    case None => None
    case Some((ns, rawName, group, kind)) =>
      Some(ObjectMetadata(ReplaceAll(rawName, "__", ":"), ns, group, kind))
  }

  /** The parser finds every match of the pattern, so no string splits in two ways. */
  lemma CaptureFindsMatch(s: string, ns: string, rawName: string, group: string, kind: string)
    requires Matches(s, ns, rawName, group, kind)
    ensures Capture(s) == Some((ns, rawName, group, kind))
  {
    NamespacePatternIsClass(ns);
    NamespacePatternIsClass(group);
    NamePatternIsClass(rawName);
    assert s == ns + ['_'] + (rawName + "_" + group + "_" + kind);
    CutFirstUnique(ns, rawName + "_" + group + "_" + kind, '_');
    assert rawName + "_" + group + "_" + kind == (rawName + "_" + group) + ['_'] + kind;
    CutLastUnique(rawName + "_" + group, kind, '_');
    CutLastUnique(rawName, group, '_');
  }

  lemma CaptureIsMatch(s: string)
    requires Capture(s).Some?
    ensures var (ns, rawName, group, kind) := Capture(s).value; Matches(s, ns, rawName, group, kind)
  {
    var (ns, rawName, group, kind) := Capture(s).value;
    NamespacePatternIsClass(ns);
    NamespacePatternIsClass(group);
    NamePatternIsClass(rawName);
    assert s == Key(ns, rawName, group, kind);
  }

  /** A key is accepted exactly when the pattern matches it. */
  lemma AcceptsMatches(s: string)
    ensures ObjectMetadataFromString(s).Some?
       <==> exists ns, rawName, group, kind :: Matches(s, ns, rawName, group, kind)
  {
    if Capture(s).Some? { CaptureIsMatch(s); }
    if ns, rawName, group, kind :| Matches(s, ns, rawName, group, kind) {
      CaptureFindsMatch(s, ns, rawName, group, kind);
    }
  }

  /** The pattern matches a key in one way only, the one the parser finds. */
  lemma SplitIsUnique(s: string, a1: string, b1: string, c1: string, d1: string,
                      a2: string, b2: string, c2: string, d2: string)
    requires Matches(s, a1, b1, c1, d1) && Matches(s, a2, b2, c2, d2)
    ensures a1 == a2 && b1 == b2 && c1 == c2 && d1 == d2
  {
    CaptureFindsMatch(s, a1, b1, c1, d1);
    CaptureFindsMatch(s, a2, b2, c2, d2);
  }

  // ----- the escaping of colons -----

  function EscapeColons(s: string): string {
    ReplaceAll(s, ":", "__")
  }

  function UnescapeColons(s: string): string {
    ReplaceAll(s, "__", ":")
  }

  lemma {:induction false} EscapeCharacters(s: string)
    ensures forall c :: c in EscapeColons(s) ==> (c in s && c != ':') || c == '_'
    ensures s != "" && s[0] != ':' ==> EscapeColons(s) != "" && EscapeColons(s)[0] == s[0]
    ensures s != "" && s[0] == ':' ==> "__" <= EscapeColons(s)
    ensures ':' !in s ==> EscapeColons(s) == s
  {
    if s != "" { EscapeCharacters(s[1..]); }
  }

  lemma {:induction false} UnescapeCharacters(s: string)
    ensures forall c :: c in UnescapeColons(s) ==> c in s || c == ':'
    ensures s != "" && s[0] != '_' ==> UnescapeColons(s) != "" && UnescapeColons(s)[0] == s[0]
    decreases |s|
  {
    if |s| >= 2 {
      if s[..2] == "__" {
        UnescapeCharacters(s[2..]);
        assert UnescapeColons(s) == ":" + UnescapeColons(s[2..]);
      } else {
        UnescapeCharacters(s[1..]);
        assert UnescapeColons(s) == [s[0]] + UnescapeColons(s[1..]);
        assert forall c :: c in [s[0]] + UnescapeColons(s[1..]) ==> c == s[0] || c in UnescapeColons(s[1..]);
      }
    }
  }

  /** What decoding the encoding of `s` yields, one character of `s` at a time. */
  lemma UnescapeEscapeStep(s: string)
    requires s != ""
    ensures s[0] == ':' ==> UnescapeColons(EscapeColons(s)) == ":" + UnescapeColons(EscapeColons(s[1..]))
    ensures s[0] == '_' && |s| > 1 && (s[1] == '_' || s[1] == ':') ==> ":" <= UnescapeColons(EscapeColons(s))
    ensures s[0] != ':' && !(s[0] == '_' && |s| > 1 && (s[1] == '_' || s[1] == ':'))
       ==> UnescapeColons(EscapeColons(s)) == [s[0]] + UnescapeColons(EscapeColons(s[1..]))
  {
    var rest := EscapeColons(s[1..]);
    if s[0] == ':' {
      assert s[..1] == ":";
      assert ("__" + rest)[..2] == "__" && ("__" + rest)[2..] == rest;
    } else {
      assert s[..1] != ":";
      var e := [s[0]] + rest;
      assert EscapeColons(s) == e && e[1..] == rest;
      if |s| > 1 { EscapeCharacters(s[1..]); }
      if |e| >= 2 {
        assert e[..2] == [e[0], e[1]];
        if e[..2] == "__" { assert e[0] == '_' && e[1] == '_'; }
      }
    }
  }

  /** Escaping is undone exactly on names free of a double underscore and of an underscore before a colon. */
  lemma {:induction false} UnescapeEscape(s: string)
    ensures UnescapeColons(EscapeColons(s)) == s <==> !Contains(s, "__") && !Contains(s, "_:")
  {
    if s != "" {
      UnescapeEscapeStep(s);
      UnescapeEscape(s[1..]);
      ContainsUnfold(s, "__");
      ContainsUnfold(s, "_:");
      assert s == [s[0]] + s[1..];
      if |s| > 1 { assert s[0..2] == [s[0], s[1]]; }
    }
  }

  lemma {:induction false} EscapeUnescape(s: string)
    requires ':' !in s
    ensures EscapeColons(UnescapeColons(s)) == s
    decreases |s|
  {
    if |s| >= 2 && s[..2] == "__" {
      EscapeUnescape(s[2..]);
      var u := UnescapeColons(s[2..]);
      assert UnescapeColons(s) == ":" + u && (":" + u)[1..] == u && (":" + u)[..1] == ":";
      assert s == "__" + s[2..];
    } else if s != "" {
      EscapeUnescape(s[1..]);
      var u := UnescapeColons(s[1..]);
      assert |s| < 2 ==> s[1..] == "";
      assert UnescapeColons(s) == [s[0]] + u;
      assert ([s[0]] + u)[1..] == u && ([s[0]] + u)[..1] == [s[0]] != ":";
      assert s == [s[0]] + s[1..];
    }
  }

  // ----- main results -----

  /** The field shapes an id needs before its key can be accepted at all. */
  predicate HasKeyCharacters(m: ObjectMetadata) {
    && All(m.ns, IsNamespaceChar)
    && All(m.group, IsNamespaceChar)
    && All(m.kind, IsAlnum)
    && m.name != "" && IsAlnum(m.name[0])
    && All(m.name, c => IsNameChar(c) || c == ':')
  }

  /** The ids that survive being stored and loaded. */
  ghost predicate WellFormed(m: ObjectMetadata) {
    HasKeyCharacters(m) && !Contains(m.name, "__") && !Contains(m.name, "_:")
  }

  /** The key of the id is accepted, as the key of `x`. */
  predicate ReadsBackAs(m: ObjectMetadata, x: ObjectMetadata) {
    ObjectMetadataFromString(ToString(m)) == Some(x)
  }

  /** The key of the id is accepted, but as the key of another id. */
  ghost predicate Misread(m: ObjectMetadata) {
    exists x :: x != m && ReadsBackAs(m, x)
  }

  lemma KeyIsAccepted(m: ObjectMetadata)
    ensures ObjectMetadataFromString(ToString(m)).Some? <== HasKeyCharacters(m)
    ensures HasKeyCharacters(m) ==> ObjectMetadataFromString(ToString(m)) ==
                                    Some(m.(name := UnescapeColons(EscapeColons(m.name))))
  {
    if HasKeyCharacters(m) {
      var raw := EscapeColons(m.name);
      EscapeCharacters(m.name);
      forall i | 0 <= i < |raw| ensures IsNameChar(raw[i]) {
        assert raw[i] in raw;
      }
      NamespacePatternIsClass(m.ns);
      NamespacePatternIsClass(m.group);
      NamePatternIsClass(raw);
      CaptureFindsMatch(ToString(m), m.ns, raw, m.group, m.kind);
    }
  }

  /** Everything the parser returns has the characters of a key. */
  lemma ParsedHasKeyCharacters(s: string)
    ensures ObjectMetadataFromString(s).Some? ==> HasKeyCharacters(ObjectMetadataFromString(s).value)
  {
    if Capture(s).Some? {
      var raw := Capture(s).value.1;
      UnescapeCharacters(raw);
      var name := UnescapeColons(raw);
      forall i | 0 <= i < |name| ensures IsNameChar(name[i]) || name[i] == ':' {
        assert name[i] in name;
      }
    }
  }

  /** Print then parse gives the id back exactly for the well-formed ids. */
  lemma PrintThenParse(m: ObjectMetadata)
    ensures ObjectMetadataFromString(ToString(m)) == Some(m) <==> WellFormed(m)
  {
    KeyIsAccepted(m);
    ParsedHasKeyCharacters(ToString(m));
    UnescapeEscape(m.name);
  }

  /** In plain characters: letters, digits, `-` and `.`, in names also `_` and `:` after a letter or digit. */
  lemma WellFormedIs(m: ObjectMetadata)
    ensures WellFormed(m) <==>
            && (forall c :: c in m.ns || c in m.group ==> IsLetterOrDigit(c) || c == '-' || c == '.')
            && (forall c :: c in m.kind ==> IsLetterOrDigit(c))
            && (forall c :: c in m.name ==> IsLetterOrDigit(c) || c == '-' || c == '.' || c == '_' || c == ':')
            && m.name != "" && IsLetterOrDigit(m.name[0])
            && (forall i :: 0 <= i < |m.name| - 1 && m.name[i] == '_' ==> m.name[i + 1] != '_' && m.name[i + 1] != ':')
  {
    AllMembers(m.ns, IsNamespaceChar);
    AllMembers(m.group, IsNamespaceChar);
    AllMembers(m.kind, IsAlnum);
    AllMembers(m.name, c => IsNameChar(c) || c == ':');
    PairOccurs(m.name, '_', '_');
    PairOccurs(m.name, '_', ':');
  }

  predicate IsLetterOrDigit(c: char) {
    'a' <= c <= 'z' || 'A' <= c <= 'Z' || '0' <= c <= '9'
  }

  lemma AllMembers(s: string, p: char -> bool)
    ensures All(s, p) <==> forall c :: c in s ==> p(c)
  {
  }

  lemma PairOccurs(s: string, a: char, b: char)
    ensures Contains(s, [a, b]) <==> exists i :: 0 <= i < |s| - 1 && s[i] == a && s[i + 1] == b
  {
    forall i | 0 <= i < |s| - 1 && s[i] == a && s[i + 1] == b ensures OccursAt(s, [a, b], i) {
      assert s[i..i + 2] == [a, b];
    }
    if Contains(s, [a, b]) {
      var i :| OccursAt(s, [a, b], i);
      assert s[i..i + 2] == [a, b];
      assert s[i] == s[i..i + 2][0] && s[i + 1] == s[i..i + 2][1];
    }
  }

  /** A key is read as an id exactly if the id is well formed and the key is its own. */
  lemma ParsesExactly(s: string, m: ObjectMetadata)
    ensures ObjectMetadataFromString(s) == Some(m) <==> WellFormed(m) && s == ToString(m)
  {
    PrintThenParse(m);
    if ObjectMetadataFromString(s) == Some(m) { ParseThenPrint(s); }
  }

  /** The text of a key: namespace, name, group and kind in this order, each colon of the name replaced by `__`. */
  lemma KeyText(m: ObjectMetadata, before: string, after: string)
    ensures ToString(m) == m.ns + "_" + EscapeColons(m.name) + "_" + m.group + "_" + m.kind
    ensures ':' !in before ==> EscapeColons(before) == before
    ensures EscapeColons(before + ":" + after) == EscapeColons(before) + "__" + EscapeColons(after)
  {
    EscapeCharacters(before);
    EscapeAppend(before, ":" + after);
    assert before + ":" + after == before + (":" + after);
    assert (":" + after)[..1] == ":" && (":" + after)[1..] == after;
    Associative(EscapeColons(before), "__", EscapeColons(after));
  }

  lemma EscapeFirst(s: string)
    requires s != ""
    ensures EscapeColons(s) == (if s[0] == ':' then "__" else [s[0]]) + EscapeColons(s[1..])
  {
    assert s[..1] == [s[0]];
  }

  lemma {:induction false} EscapeAppend(a: string, b: string)
    ensures EscapeColons(a + b) == EscapeColons(a) + EscapeColons(b)
  {
    if a == "" {
      assert a + b == b;
    } else {
      var first := if a[0] == ':' then "__" else [a[0]];
      assert (a + b)[1..] == a[1..] + b;
      EscapeFirst(a);
      EscapeFirst(a + b);
      EscapeAppend(a[1..], b);
      Associative(first, EscapeColons(a[1..]), EscapeColons(b));
    }
  }

  /** Parse then print gives the key back for every accepted key. */
  lemma ParseThenPrint(s: string)
    requires ObjectMetadataFromString(s).Some?
    ensures ToString(ObjectMetadataFromString(s).value) == s
    ensures WellFormed(ObjectMetadataFromString(s).value)
  {
    CaptureIsMatch(s);
    var (ns, raw, group, kind) := Capture(s).value;
    NamePatternIsClass(raw);
    EscapeUnescape(raw);
    PrintThenParse(ObjectMetadataFromString(s).value);
  }

  /** Two different keys never denote the same id. */
  lemma KeysAreInjective(s: string, t: string, m: ObjectMetadata)
    requires ObjectMetadataFromString(s) == Some(m) && ObjectMetadataFromString(t) == Some(m)
    ensures s == t
  {
    ParseThenPrint(s);
    ParseThenPrint(t);
  }

  /** For ids that are made of key characters: they are misread exactly if the name holds `__` or `_:`. */
  lemma MisreadNames(m: ObjectMetadata)
    requires HasKeyCharacters(m)
    ensures Misread(m) <==> Contains(m.name, "__") || Contains(m.name, "_:")
  {
    KeyIsAccepted(m);
    UnescapeEscape(m.name);
    var back := m.(name := UnescapeColons(EscapeColons(m.name)));
    assert ReadsBackAs(m, back);
  }
}
