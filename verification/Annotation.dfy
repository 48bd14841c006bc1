/** pkg/resource/dependency.go: the `depends-on` annotation. */
module Annotation {
  import opened Wrappers
  import opened Text
  import opened Metadata

  const DEPENDS_ON := "config.kubernetes.io/depends-on"
  const NAMESPACES_FIELD := "namespaces"

  datatype ReferenceError = MissingKind | MissingName | NotNamespacesField | UnexpectedFields

  // ----- one reference -----

  /** parseDependencyObjectMetadata */
  function ParseReference(s: string): Result<ObjectMetadata, ReferenceError> {
    ReferenceOf(Split(TrimSpace(s), '/'))
  }

  function ReferenceOf(parts: seq<string>): Result<ObjectMetadata, ReferenceError> {
    if |parts| == 3 then
      Ok(ObjectMetadata(parts[2], "", parts[0], parts[1]))
    else if |parts| == 5 then
      if parts[1] != NAMESPACES_FIELD then Err(NotNamespacesField)
      else Ok(ObjectMetadata(parts[4], parts[2], parts[0], parts[3]))
    else Err(UnexpectedFields)
  }

  /** formatDependencyObjectMetadata */
  function FormatReference(m: ObjectMetadata): Result<string, ReferenceError> {
    if m.kind == "" then Err(MissingKind)
    else if m.name == "" then Err(MissingName)
    else if m.ns == "" then Ok(m.group + "/" + m.kind + "/" + m.name)
    else Ok(m.group + "/" + NAMESPACES_FIELD + "/" + m.ns + "/" + m.kind + "/" + m.name)
  }

  // ----- lists of references -----

  /** The references parsed before the first malformed part, and that part's error. */
  function ParseAll(parts: seq<string>): (seq<ObjectMetadata>, Option<ReferenceError>) {
    if parts == [] then ([], None)
    else
      match ParseReference(parts[0])
      case Err(e) => ([], Some(e))
      case Ok(m) => var (ms, e) := ParseAll(parts[1..]); ([m] + ms, e)
  }

  function FormatAll(deps: seq<ObjectMetadata>): Result<seq<string>, ReferenceError> {
    if deps == [] then Ok([])
    else
      match FormatReference(deps[0])
      case Err(e) => Err(e)
      case Ok(s) =>
        match FormatAll(deps[1..])
        case Err(e) => Err(e)
        case Ok(ss) => Ok([s] + ss)
  }

  function UnmarshalSpec(s: string): (seq<ObjectMetadata>, Option<ReferenceError>) {
    ParseAll(Split(s, ','))
  }

  function MarshalSpec(deps: seq<ObjectMetadata>): Result<string, ReferenceError> {
    match FormatAll(deps)
    case Err(e) => Err(e)
    case Ok(ss) => Ok(Join(ss, ','))
  }

  /** unmarshalDepedenciesString: the partial list is returned along with an error. */
  method Unmarshal(s: string) returns (deps: seq<ObjectMetadata>, err: Option<ReferenceError>)
    ensures (deps, err) == UnmarshalSpec(s)
  {
    deps, err := [], None;
    var parts := Split(s, ',');
    assert parts[0..] == parts;
    for i := 0 to |parts|
      invariant err == None
      invariant ParseAll(parts).0 == deps + ParseAll(parts[i..]).0
      invariant ParseAll(parts).1 == ParseAll(parts[i..]).1
    {
      assert parts[i..][0] == parts[i] && parts[i..][1..] == parts[i + 1..];
      match ParseReference(parts[i])
      case Err(e) =>
        assert deps + [] == deps;
        return deps, Some(e);
      case Ok(m) =>
        deps := deps + [m];
    }
    assert deps + [] == deps;
  }

  /** marshalDepedenciesString */
  method Marshal(deps: seq<ObjectMetadata>) returns (r: Result<string, ReferenceError>)
    ensures r == MarshalSpec(deps)
  {
    var formatted: seq<string> := [];
    assert deps[0..] == deps;
    for i := 0 to |deps|
      invariant FormatAll(deps[i..]).Err? ==> FormatAll(deps) == FormatAll(deps[i..])
      invariant FormatAll(deps[i..]).Ok? ==> FormatAll(deps).Ok?
      invariant FormatAll(deps[i..]).Ok? ==> FormatAll(deps).value == formatted + FormatAll(deps[i..]).value
    {
      assert deps[i..][0] == deps[i] && deps[i..][1..] == deps[i + 1..];
      match FormatReference(deps[i])
      case Err(e) =>
        return Err(e);
      case Ok(s) =>
        formatted := formatted + [s];
    }
    assert formatted + [] == formatted;
    r := Ok(Join(formatted, ','));
  }

  /** The annotations of one object, which is all that setting its dependencies changes. */
  class AnnotatedObject {
    var annotations: map<string, string>

    constructor (annotations: map<string, string>)
      ensures this.annotations == annotations
    {
      this.annotations := annotations;
    }

    /** SetObjectExplicitDependencies: nothing is written for an empty list or a malformed one. */
    method SetExplicitDependencies(deps: seq<ObjectMetadata>) returns (err: Option<ReferenceError>)
      modifies this
      ensures err == if deps != [] && MarshalSpec(deps).Err? then Some(MarshalSpec(deps).error) else None
      ensures annotations == if deps != [] && MarshalSpec(deps).Ok?
                             then old(annotations)[DEPENDS_ON := MarshalSpec(deps).value]
                             else old(annotations)
    {
      if |deps| == 0 { return None; }
      var r := Marshal(deps);
      match r
      case Err(e) => return Some(e);
      case Ok(s) =>
        annotations := annotations[DEPENDS_ON := s];
        return None;
    }

    /** ObjectExplicitDependencies */
    method ExplicitDependencies() returns (deps: seq<ObjectMetadata>, err: Option<ReferenceError>)
      ensures (deps, err) == ExplicitSpec(annotations)
    {
      if DEPENDS_ON !in annotations { return [], None; }
      deps, err := Unmarshal(annotations[DEPENDS_ON]);
    }
  }

  /** What reading the dependencies of an object with these annotations returns. */
  function ExplicitSpec(annotations: map<string, string>): (seq<ObjectMetadata>, Option<ReferenceError>) {
    if DEPENDS_ON in annotations then UnmarshalSpec(annotations[DEPENDS_ON]) else ([], None)
  }

  // ----- round trip -----

  predicate FreeOfSeparators(s: string) {
    '/' !in s && ',' !in s
  }

  /** The references that survive being written and read. */
  predicate IsClean(m: ObjectMetadata) {
    && FreeOfSeparators(m.group) && FreeOfSeparators(m.kind) && FreeOfSeparators(m.ns) && FreeOfSeparators(m.name)
    && (m.group != "" ==> !IsSpace(m.group[0]))
    && (m.name != "" ==> !IsSpace(m.name[|m.name| - 1]))
  }

  lemma TrimKeeps(s: string)
    requires s != "" && !IsSpace(s[0]) && !IsSpace(s[|s| - 1])
    ensures TrimSpace(s) == s
  {
  }

  function FieldList(m: ObjectMetadata): seq<string> {
    if m.ns == "" then [m.group, m.kind, m.name]
    else [m.group, NAMESPACES_FIELD, m.ns, m.kind, m.name]
  }

  lemma JoinCons(head: string, tail: seq<string>)
    requires tail != []
    ensures Join([head] + tail, '/') == head + "/" + Join(tail, '/')
  {
    assert ([head] + tail)[1..] == tail;
  }

  lemma JoinedThree(a: string, b: string, c: string)
    ensures Join([a, b, c], '/') == a + "/" + b + "/" + c
  {
    JoinCons(b, [c]);
    assert [b] + [c] == [b, c];
    JoinCons(a, [b, c]);
    assert [a] + [b, c] == [a, b, c];
  }

  lemma JoinedFive(a: string, b: string, c: string, d: string, e: string)
    ensures Join([a, b, c, d, e], '/') == a + "/" + b + "/" + c + "/" + d + "/" + e
  {
    JoinedThree(c, d, e);
    JoinCons(b, [c, d, e]);
    assert [b] + [c, d, e] == [b, c, d, e];
    JoinCons(a, [b, c, d, e]);
    assert [a] + [b, c, d, e] == [a, b, c, d, e];
  }

  lemma FormattedFields(m: ObjectMetadata)
    requires FormatReference(m).Ok?
    ensures FormatReference(m).value == Join(FieldList(m), '/')
  {
    if m.ns == "" {
      JoinedThree(m.group, m.kind, m.name);
    } else {
      JoinedFive(m.group, NAMESPACES_FIELD, m.ns, m.kind, m.name);
    }
  }

  lemma FormattedEnds(m: ObjectMetadata)
    requires FormatReference(m).Ok? && IsClean(m)
    ensures var s := FormatReference(m).value; TrimSpace(s) == s && ',' !in s
  {
    var s := FormatReference(m).value;
    assert s[0] == if m.group == "" then '/' else m.group[0];
    assert s[|s| - 1] == m.name[|m.name| - 1];
    TrimKeeps(s);
  }

  lemma FieldsOfTrimmed(s: string, parts: seq<string>)
    requires TrimSpace(s) == s && s == Join(parts, '/')
    requires parts != [] && forall p :: p in parts ==> '/' !in p
    ensures Split(TrimSpace(s), '/') == parts
  {
    SplitOfJoin(parts, '/');
  }

  /** A clean reference is read back from its own text. */
  lemma CleanReferenceRoundTrip(m: ObjectMetadata)
    requires FormatReference(m).Ok? && IsClean(m)
    ensures ParseReference(FormatReference(m).value) == Ok(m)
  {
    FormattedEnds(m);
    FormattedFields(m);
    FieldsOfTrimmed(FormatReference(m).value, FieldList(m));
  }

  // ----- which texts are references, and which are lists of them -----

  /** The two forms of a reference: without a namespace, and with one. */
  predicate IsReferenceText(t: string, m: ObjectMetadata) {
    && '/' !in m.group && '/' !in m.ns && '/' !in m.kind && '/' !in m.name
    && ((m.ns == "" && t == m.group + "/" + m.kind + "/" + m.name)
        || t == m.group + "/namespaces/" + m.ns + "/" + m.kind + "/" + m.name)
  }

  lemma ThreeFields(t: string, m: ObjectMetadata)
    requires '/' !in m.group && '/' !in m.kind && '/' !in m.name
    ensures Split(t, '/') == [m.group, m.kind, m.name] <==> t == m.group + "/" + m.kind + "/" + m.name
  {
    JoinedThree(m.group, m.kind, m.name);
    JoinOfSplit(t, '/');
    SplitOfJoin([m.group, m.kind, m.name], '/');
  }

  lemma FiveFields(t: string, m: ObjectMetadata)
    requires '/' !in m.group && '/' !in m.ns && '/' !in m.kind && '/' !in m.name
    ensures Split(t, '/') == [m.group, "namespaces", m.ns, m.kind, m.name] <==>
            t == m.group + "/namespaces/" + m.ns + "/" + m.kind + "/" + m.name
  {
    var parts := [m.group, "namespaces", m.ns, m.kind, m.name];
    JoinedFive(m.group, "namespaces", m.ns, m.kind, m.name);
    assert m.group + "/" + "namespaces" + "/" + m.ns + "/" + m.kind + "/" + m.name ==
           m.group + "/namespaces/" + m.ns + "/" + m.kind + "/" + m.name;
    JoinOfSplit(t, '/');
    SplitOfJoin(parts, '/');
  }

  lemma PartsOfReference(parts: seq<string>, m: ObjectMetadata)
    requires forall p :: p in parts ==> '/' !in p
    ensures ReferenceOf(parts) == Ok(m) <==>
            '/' !in m.group && '/' !in m.ns && '/' !in m.kind && '/' !in m.name
            && ((m.ns == "" && parts == [m.group, m.kind, m.name])
                || parts == [m.group, "namespaces", m.ns, m.kind, m.name])
  {
    assert '/' !in "";
  }

  /** A text is read as a reference exactly if, without outer white space, it has one of the two forms. */
  lemma ParseReferenceIs(s: string, m: ObjectMetadata)
    ensures ParseReference(s) == Ok(m) <==> IsReferenceText(TrimSpace(s), m)
  {
    var t := TrimSpace(s);
    SplitPartsAreFree(t, '/');
    PartsOfReference(Split(t, '/'), m);
    if '/' !in m.group && '/' !in m.ns && '/' !in m.kind && '/' !in m.name {
      ThreeFields(t, m);
      FiveFields(t, m);
    }
  }

  /**
   * It is rejected exactly if it has neither of them, which is when its fields are not three, and not five of which
   * the second is `namespaces`.
   */
  lemma RejectedReferences(s: string)
    ensures ParseReference(s).Err? <==> forall m :: !IsReferenceText(TrimSpace(s), m)
    ensures ParseReference(s).Err? <==>
            forall fields :: IsFieldsOf(fields, TrimSpace(s)) ==>
              |fields| != 3 && !(|fields| == 5 && fields[1] == "namespaces")
    ensures ParseReference(s) == Err(NotNamespacesField) <==>
            exists fields :: IsFieldsOf(fields, TrimSpace(s)) && |fields| == 5 && fields[1] != "namespaces"
  {
    var t := TrimSpace(s);
    if ParseReference(s).Ok? {
      ParseReferenceIs(s, ParseReference(s).value);
    } else {
      forall m ensures !IsReferenceText(t, m) { ParseReferenceIs(s, m); }
    }
    SplitPartsAreFree(t, '/');
    JoinOfSplit(t, '/');
    assert IsFieldsOf(Split(t, '/'), t);
    forall fields | IsFieldsOf(fields, t) ensures fields == Split(t, '/') { SplitOfJoin(fields, '/'); }
  }

  /** The text consists of these fields. */
  ghost predicate IsFieldsOf(fields: seq<string>, t: string) {
    fields != [] && (forall f :: f in fields ==> '/' !in f) && t == Join(fields, '/')
  }

  /** A list is read part by part: every part up to the first malformed one, and that one's error. */
  lemma {:induction false} ReadsPartByPart(parts: seq<string>)
    ensures var (deps, err) := ParseAll(parts);
            && |deps| <= |parts|
            && (forall i :: 0 <= i < |deps| ==> ParseReference(parts[i]) == Ok(deps[i]))
            && (err == None <==> |deps| == |parts|)
            && (err.Some? ==> ParseReference(parts[|deps|]) == Err(err.value))
  {
    if parts != [] && ParseReference(parts[0]).Ok? {
      ReadsPartByPart(parts[1..]);
      var (rest, err) := ParseAll(parts[1..]);
      var deps := ParseAll(parts).0;
      assert deps == [ParseReference(parts[0]).value] + rest;
      forall i | 0 <= i < |deps| ensures ParseReference(parts[i]) == Ok(deps[i]) {
        if i > 0 { assert parts[i] == parts[1..][i - 1]; }
      }
    }
  }

  /** The same for the text of an annotation, whose parts are what commas separate. */
  lemma UnmarshalIsPrefix(s: string, parts: seq<string>)
    requires parts != [] && (forall p :: p in parts ==> ',' !in p) && s == Join(parts, ',')
    ensures var (deps, err) := UnmarshalSpec(s);
            && |deps| <= |parts|
            && (forall i :: 0 <= i < |deps| ==> IsReferenceText(TrimSpace(parts[i]), deps[i]))
            && (err == None <==> |deps| == |parts|)
            && (err.Some? ==> forall m :: !IsReferenceText(TrimSpace(parts[|deps|]), m))
  {
    SplitOfJoin(parts, ',');
    ReadsPartByPart(parts);
    var (deps, err) := ParseAll(parts);
    forall i | 0 <= i < |deps| ensures IsReferenceText(TrimSpace(parts[i]), deps[i]) {
      ParseReferenceIs(parts[i], deps[i]);
    }
    if err.Some? { RejectedReferences(parts[|deps|]); }
  }

  /** A list is written by writing its parts with commas in between. */
  lemma {:induction false} MarshalAppend(a: seq<ObjectMetadata>, b: seq<ObjectMetadata>)
    requires a != [] && b != [] && MarshalSpec(a).Ok? && MarshalSpec(b).Ok?
    ensures MarshalSpec(a + b) == Ok(MarshalSpec(a).value + "," + MarshalSpec(b).value)
  {
    FormatAllAppend(a, b);
    FormatAllLength(a);
    FormatAllLength(b);
    JoinAppend(FormatAll(a).value, FormatAll(b).value, ',');
  }

  lemma {:induction false} FormatAllLength(deps: seq<ObjectMetadata>)
    requires FormatAll(deps).Ok?
    ensures |FormatAll(deps).value| == |deps|
  {
    if deps != [] { FormatAllLength(deps[1..]); }
  }

  lemma {:induction false} FormatAllAppend(a: seq<ObjectMetadata>, b: seq<ObjectMetadata>)
    requires FormatAll(a).Ok? && FormatAll(b).Ok?
    ensures FormatAll(a + b) == Ok(FormatAll(a).value + FormatAll(b).value)
  {
    if a == [] {
      assert a + b == b && [] + FormatAll(b).value == FormatAll(b).value;
    } else {
      assert (a + b)[0] == a[0] && (a + b)[1..] == a[1..] + b;
      FormatAllAppend(a[1..], b);
      var s := FormatReference(a[0]).value;
      Associative([s], FormatAll(a[1..]).value, FormatAll(b).value);
    }
  }

  /** One reference is written in the first form without a namespace, and in the second with one. */
  lemma MarshalOne(m: ObjectMetadata)
    requires m.kind != "" && m.name != ""
    ensures MarshalSpec([m]) ==
            Ok(if m.ns == "" then m.group + "/" + m.kind + "/" + m.name
               else m.group + "/namespaces/" + m.ns + "/" + m.kind + "/" + m.name)
  {
    var s := FormatReference(m).value;
    assert [m][1..] == [] && [s] + [] == [s];
    assert FormatAll([m]) == Ok([s]);
    assert m.group + "/" + NAMESPACES_FIELD + "/" + m.ns + "/" + m.kind + "/" + m.name ==
           m.group + "/namespaces/" + m.ns + "/" + m.kind + "/" + m.name;
  }

  // ----- white space around references -----

  /** The text of the reference with any white space around it. */
  ghost predicate IsPadded(s: string, m: ObjectMetadata) {
    FormatReference(m).Ok? &&
    exists p, q :: All(p, IsSpace) && All(q, IsSpace) && s == p + FormatReference(m).value + q
  }

  /** White space around a clean reference does not matter. */
  lemma PaddedReference(m: ObjectMetadata, s: string)
    requires IsClean(m) && IsPadded(s, m)
    ensures ParseReference(s) == Ok(m) && ',' !in s
  {
    var p, q :| All(p, IsSpace) && All(q, IsSpace) && s == p + FormatReference(m).value + q;
    FormattedEnds(m);
    TrimPadded(p, FormatReference(m).value, q);
    CleanReferenceRoundTrip(m);
    forall c | c in s ensures c != ',' {
      if c in p { var i :| 0 <= i < |p| && p[i] == c; }
      else if c in q { var i :| 0 <= i < |q| && q[i] == c; }
    }
  }

  /** Nor does white space around the parts of a list of clean references. */
  lemma PaddedList(deps: seq<ObjectMetadata>, parts: seq<string>)
    requires deps != [] && |parts| == |deps|
    requires forall i :: 0 <= i < |deps| ==> IsClean(deps[i]) && IsPadded(parts[i], deps[i])
    ensures UnmarshalSpec(Join(parts, ',')) == (deps, None)
  {
    forall i | 0 <= i < |parts| ensures ',' !in parts[i] && ParseReference(parts[i]) == Ok(deps[i]) {
      PaddedReference(deps[i], parts[i]);
    }
    SplitOfJoin(parts, ',');
    AllPartsAreRead(deps, parts);
  }

  lemma AllPartsAreRead(deps: seq<ObjectMetadata>, parts: seq<string>)
    requires |parts| == |deps| && forall i :: 0 <= i < |parts| ==> ParseReference(parts[i]) == Ok(deps[i])
    ensures ParseAll(parts) == (deps, None)
  {
    ReadsPartByPart(parts);
    var (read, err) := ParseAll(parts);
    assert |read| == |deps|;
    assert read == deps;
  }

  /** As in the annotations people write: a blank after the comma is no part of the second reference. */
  lemma BlankAfterComma(a: ObjectMetadata, b: ObjectMetadata)
    requires IsClean(a) && IsClean(b) && FormatReference(a).Ok? && FormatReference(b).Ok?
    ensures UnmarshalSpec(FormatReference(a).value + ", " + FormatReference(b).value) == ([a, b], None)
  {
    var first, second := FormatReference(a).value, FormatReference(b).value;
    PaddedBefore(a, "");
    PaddedBefore(b, " ");
    assert "" + first == first;
    PaddedList([a, b], [first, " " + second]);
    JoinedTwo(first, " " + second);
    assert first + ", " + second == first + "," + (" " + second);
  }

  lemma PaddedBefore(m: ObjectMetadata, p: string)
    requires FormatReference(m).Ok? && All(p, IsSpace)
    ensures IsPadded(p + FormatReference(m).value, m)
  {
    var s := p + FormatReference(m).value;
    assert s == s + "" && All("", IsSpace);
  }

  lemma JoinedTwo(a: string, b: string)
    ensures Join([a, b], ',') == a + "," + b
  {
    assert [a, b][1..] == [b];
  }

  lemma {:induction false} FormatAllParts(deps: seq<ObjectMetadata>)
    requires FormatAll(deps).Ok? && forall m :: m in deps ==> IsClean(m)
    ensures |FormatAll(deps).value| == |deps|
    ensures forall s :: s in FormatAll(deps).value ==> ',' !in s
    ensures ParseAll(FormatAll(deps).value) == (deps, None)
  {
    if deps != [] {
      CleanReferenceRoundTrip(deps[0]);
      FormattedEnds(deps[0]);
      FormatAllParts(deps[1..]);
      assert FormatAll(deps).value[1..] == FormatAll(deps[1..]).value;
      assert deps == [deps[0]] + deps[1..];
    }
  }

  lemma {:induction false} SplitStartsWithFirst(s: string, sep: char)
    ensures Split(s, sep)[0] <= s
  {
    if s != "" { SplitStartsWithFirst(s[1..], sep); }
  }

  predicate IsSuffix(last: string, s: string) {
    |last| <= |s| && s[|s| - |last|..] == last
  }

  lemma SuffixOfTail(last: string, s: string)
    requires s != "" && IsSuffix(last, s[1..])
    ensures IsSuffix(last, s)
  {
    assert s[|s| - |last|..] == s[1..][|s[1..]| - |last|..];
  }

  lemma {:induction false} SplitEndsWithLast(s: string, sep: char)
    ensures IsSuffix(Split(s, sep)[|Split(s, sep)| - 1], s)
    ensures |Split(s, sep)| == 1 ==> Split(s, sep)[0] == s
  {
    if s != "" {
      SplitEndsWithLast(s[1..], sep);
      var rest := Split(s[1..], sep);
      if |rest| == 1 && s[0] != sep {
        assert rest == [s[1..]];
        OnePart(s, sep);
      } else {
        SuffixOfTail(rest[|rest| - 1], s);
        LastPartStays(s, sep);
      }
    }
  }

  lemma LastPartStays(s: string, sep: char)
    requires s != "" && (|Split(s[1..], sep)| > 1 || s[0] == sep)
    ensures |Split(s, sep)| > 1
    ensures Split(s, sep)[|Split(s, sep)| - 1] == Split(s[1..], sep)[|Split(s[1..], sep)| - 1]
  {
  }

  lemma OnePart(s: string, sep: char)
    requires s != "" && s[0] != sep && Split(s[1..], sep) == [s[1..]]
    ensures Split(s, sep) == [s] && IsSuffix(s, s)
  {
    assert [s[0]] + s[1..] == s;
  }

  lemma EndsOfTrimmed(t: string, parts: seq<string>)
    requires t != "" ==> !IsSpace(t[0]) && !IsSpace(t[|t| - 1])
    requires parts == Split(t, '/')
    ensures parts[0] != "" ==> !IsSpace(parts[0][0])
    ensures var last := parts[|parts| - 1]; last != "" ==> !IsSpace(last[|last| - 1])
  {
    SplitStartsWithFirst(t, '/');
    SplitEndsWithLast(t, '/');
    var last := parts[|parts| - 1];
    if last != "" { assert last[|last| - 1] == t[|t| - |last|..][|last| - 1] == t[|t| - 1]; }
  }

  /** Whatever text is parsed, the reference it yields is clean if the text has no list separator. */
  lemma ParsedReferenceIsClean(s: string)
    requires ',' !in s
    ensures ParseReference(s).Ok? ==> IsClean(ParseReference(s).value)
  {
    var t := TrimSpace(s);
    assert ',' !in t;
    var parts := Split(t, '/');
    SplitPartsAreFree(t, '/');
    SplitKeepsCharacters(t, '/', ',');
    assert forall p :: p in parts ==> FreeOfSeparators(p);
    EndsOfTrimmed(t, parts);
    CleanParts(parts);
  }

  lemma CleanParts(parts: seq<string>)
    requires parts != [] && forall p :: p in parts ==> FreeOfSeparators(p)
    requires parts[0] != "" ==> !IsSpace(parts[0][0])
    requires var last := parts[|parts| - 1]; last != "" ==> !IsSpace(last[|last| - 1])
    ensures ReferenceOf(parts).Ok? ==> IsClean(ReferenceOf(parts).value)
  {
    assert FreeOfSeparators("");
  }

  lemma {:induction false} ParsedListIsClean(parts: seq<string>)
    requires forall p :: p in parts ==> ',' !in p
    ensures forall m :: m in ParseAll(parts).0 ==> IsClean(m)
  {
    if parts != [] && ParseReference(parts[0]).Ok? {
      ParsedReferenceIsClean(parts[0]);
      ParsedListIsClean(parts[1..]);
    }
  }

  /** A writable list is read back unchanged exactly when every reference in it is clean. */
  lemma ListRoundTrip(deps: seq<ObjectMetadata>)
    requires deps != [] && MarshalSpec(deps).Ok?
    ensures UnmarshalSpec(MarshalSpec(deps).value) == (deps, None) <==> forall m :: m in deps ==> IsClean(m)
  {
    var s := MarshalSpec(deps).value;
    SplitPartsAreFree(s, ',');
    ParsedListIsClean(Split(s, ','));
    if forall m :: m in deps ==> IsClean(m) {
      FormatAllParts(deps);
      SplitOfJoin(FormatAll(deps).value, ',');
    }
  }

  /** A list is writable exactly when every reference has a kind and a name. */
  lemma {:induction false} WritableLists(deps: seq<ObjectMetadata>)
    ensures MarshalSpec(deps).Ok? <==> forall m :: m in deps ==> m.kind != "" && m.name != ""
  {
    if deps != [] {
      WritableLists(deps[1..]);
      assert deps == [deps[0]] + deps[1..];
    }
  }

  /** Setting the dependencies of an object and reading them again, on any object and any list. */
  method SetThenRead(o: AnnotatedObject, deps: seq<ObjectMetadata>)
    returns (setErr: Option<ReferenceError>, read: seq<ObjectMetadata>, readErr: Option<ReferenceError>)
    modifies o
    ensures deps != [] && setErr == None ==>
              ((read, readErr) == (deps, None) <==> forall m :: m in deps ==> IsClean(m))
    ensures deps == [] || setErr.Some? ==> o.annotations == old(o.annotations)
    ensures o.annotations - {DEPENDS_ON} == old(o.annotations) - {DEPENDS_ON}
    ensures setErr == None <==> forall m :: m in deps ==> m.kind != "" && m.name != ""
  {
    WritableLists(deps);
    setErr := o.SetExplicitDependencies(deps);
    read, readErr := o.ExplicitDependencies();
    if deps != [] && setErr == None { ListRoundTrip(deps); }
  }
}
