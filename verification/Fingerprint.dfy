/** The string whose digest is a resource's baseline (`unstructuredHash`). */
module Fingerprint {
  import opened Types
  import opened SortedKeys

  datatype Value = Text(text: string) | Items(items: seq<Value>) | Fields(fields: map<string, Value>)

  /** An unstructured object. */
  type Content = map<string, Value>

  /** The foreign code: rendering, patching, digesting, and what the API server makes of an
      object when its status is written. */
  datatype Platform = Platform(
    renderLabels: map<string, string> -> string,
    renderValue: Value -> string,
    patch: (Content, seq<Patch>) -> Option<Content>,
    digest: string -> Bytes,
    withStatus: (Content, Status) -> Content)

  const HIDDEN: set<string> := {"metadata", "status"}

  /** One rendered piece of the pre-digest string. */
  datatype Part = LabelPart(labels: map<string, string>) | ValuePart(value: Value)

  // ---------------------------------------------------------------- reading an object

  function StringMap(v: Value): Option<map<string, string>> {
    if v.Fields? && forall k | k in v.fields :: v.fields[k].Text?
    then Some(map k | k in v.fields :: v.fields[k].text)
    else None
  }

  function MetadataMap(u: Content, field: string): Option<map<string, string>> {
    if "metadata" in u && u["metadata"].Fields? && field in u["metadata"].fields
    then StringMap(u["metadata"].fields[field])
    else None
  }

  function Labels(u: Content): Option<map<string, string>> {
    MetadataMap(u, "labels")
  }

  predicate IsConfigMap(u: Content) {
    "kind" in u && u["kind"] == Text("ConfigMap")
  }

  /** The annotations that count: none for a ConfigMap. */
  function Annotations(u: Content): Option<map<string, string>> {
    if IsConfigMap(u) then None else MetadataMap(u, "annotations")
  }

  // ---------------------------------------------------------------- the pre-digest string

  function LabelParts(m: Option<map<string, string>>): seq<Part> {
    if m.Some? then [LabelPart(m.value)] else []
  }

  /** The keys that count, in the order given. */
  function Visible(keys: seq<string>): seq<string> {
    if keys == [] then []
    else (if keys[0] in HIDDEN then [] else [keys[0]]) + Visible(keys[1..])
  }

  function ValueParts(content: Content, keys: seq<string>): seq<Part>
    requires forall k | k in keys :: k in content
  {
    if keys == [] then [] else [ValuePart(content[keys[0]])] + ValueParts(content, keys[1..])
  }

  /** Labels and annotations of the object, then the patched content outside metadata and
      status, by ascending key. */
  ghost function Parts(u: Content, patched: Content): seq<Part> {
    LabelParts(Labels(u)) + LabelParts(Annotations(u)) +
    ValueParts(patched, Sorted(patched.Keys - HIDDEN))
  }

  function Render(p: Platform, part: Part): string {
    match part
    case LabelPart(m) => p.renderLabels(m)
    case ValuePart(v) => p.renderValue(v)
  }

  function Join(p: Platform, parts: seq<Part>): string {
    if parts == [] then "" else Render(p, parts[0]) + Join(p, parts[1..])
  }

  function Patched(p: Platform, u: Content, patches: seq<Patch>): Option<Content> {
    if patches == [] then Some(u) else p.patch(u, patches)
  }

  /** The baseline of `u` under `patches`; the patcher may fail. */
  ghost function Hash(p: Platform, u: Content, patches: seq<Patch>): Result<Bytes> {
    match Patched(p, u, patches)
    case None => Err(OtherError)
    case Some(content) => Ok(p.digest(Join(p, Parts(u, content))))
  }

  lemma {:induction false} JoinAppend(p: Platform, a: seq<Part>, b: seq<Part>)
    ensures Join(p, a + b) == Join(p, a) + Join(p, b)
  {
    if a == [] {
      assert a + b == b;
    } else {
      assert (a + b)[1..] == a[1..] + b;
      JoinAppend(p, a[1..], b);
    }
  }

  lemma {:induction false} VisibleAppend(a: seq<string>, b: seq<string>)
    ensures Visible(a + b) == Visible(a) + Visible(b)
  {
    if a == [] {
      assert a + b == b;
    } else {
      assert (a + b)[1..] == a[1..] + b;
      VisibleAppend(a[1..], b);
    }
  }

  lemma {:induction false} ValuePartsAppend(c: Content, a: seq<string>, b: seq<string>)
    requires forall k | k in a + b :: k in c
    ensures (forall k | k in a :: k in c) && (forall k | k in b :: k in c)
    ensures ValueParts(c, a + b) == ValueParts(c, a) + ValueParts(c, b)
  {
    assert forall k | k in a :: k in a + b;
    assert forall k | k in b :: k in a + b;
    if a == [] {
      assert a + b == b;
    } else {
      assert (a + b)[1..] == a[1..] + b;
      ValuePartsAppend(c, a[1..], b);
    }
  }

  lemma {:induction false} VisibleMembers(keys: seq<string>)
    ensures forall k :: k in Visible(keys) <==> k in keys && k !in HIDDEN
  {
    if keys != [] {
      VisibleMembers(keys[1..]);
      assert keys == [keys[0]] + keys[1..];
    }
  }

  /** Skipping the hidden keys of the sorted keys is sorting the visible keys. */
  lemma {:induction false} VisibleSorted(keys: seq<string>, s: set<string>)
    requires SortedEnumeration(keys, s)
    ensures Visible(keys) == Sorted(s - HIDDEN)
  {
    VisibleStaysSorted(keys, s);
    SortedEnumerationUnique(Visible(keys), Sorted(s - HIDDEN), s - HIDDEN);
  }

  lemma {:induction false} VisibleStaysSorted(keys: seq<string>, s: set<string>)
    requires SortedEnumeration(keys, s)
    ensures SortedEnumeration(Visible(keys), s - HIDDEN)
  {
    VisibleMembers(keys);
    if keys != [] {
      TailEnumerates(keys, s);
      VisibleStaysSorted(keys[1..], s - {keys[0]});
      VisibleMembers(keys[1..]);
      var rest := Visible(keys[1..]);
      forall x | x in rest ensures LexLe(keys[0], x) && x != keys[0] {
        var i :| 0 <= i < |keys[1..]| && keys[1..][i] == x;
        assert keys[i + 1] == x;
      }
      assert forall i | 0 <= i < |rest| :: rest[i] in rest;
    }
  }

  /** What the first `n` keys contribute to the pre-digest string. */
  function Rendered(p: Platform, content: Content, keys: seq<string>, n: nat): string
    requires n <= |keys| && forall k | k in keys :: k in content
  {
    if n == 0 then ""
    else
      var k := keys[n - 1];
      Rendered(p, content, keys, n - 1) + Piece(p, content, k)
  }

  function Piece(p: Platform, content: Content, k: string): string
    requires k in content
  {
    if k in HIDDEN then "" else p.renderValue(content[k])
  }

  lemma {:induction false} RenderedIsJoined(p: Platform, content: Content, keys: seq<string>, n: nat)
    requires n <= |keys| && forall k | k in keys :: k in content
    ensures forall k | k in Visible(keys[..n]) :: k in content
    ensures Rendered(p, content, keys, n) == Join(p, ValueParts(content, Visible(keys[..n])))
  {
    if n == 0 {
      assert keys[..0] == [];
    } else {
      var init, k := keys[..n - 1], keys[n - 1];
      assert keys[..n] == init + [k];
      RenderedIsJoined(p, content, keys, n - 1);
      AppendKey(p, content, init, k);
    }
  }

  /** The loop over the sorted keys of the content. */
  method RenderContent(p: Platform, content: Content) returns (config: string)
    ensures config == Join(p, ValueParts(content, Sorted(content.Keys - HIDDEN)))
  {
    var keys := GetSortedKeys(content);
    config := "";
    for i := 0 to |keys|
      invariant config == Rendered(p, content, keys, i)
    {
      if keys[i] != "metadata" && keys[i] != "status" {
        config := config + p.renderValue(content[keys[i]]);
      }
    }
    VisibleSorted(keys, content.Keys);
    RenderedIsJoined(p, content, keys, |keys|);
    assert keys[..|keys|] == keys;
  }

  lemma AppendKey(p: Platform, content: Content, keys: seq<string>, k: string)
    requires k in content && forall k' | k' in Visible(keys) :: k' in content
    ensures forall k' | k' in Visible(keys + [k]) :: k' in content
    ensures Join(p, ValueParts(content, Visible(keys + [k]))) ==
            Join(p, ValueParts(content, Visible(keys))) + Piece(p, content, k)
  {
    VisibleAppend(keys, [k]);
    assert Visible([k]) == if k in HIDDEN then [] else [k];
    if k !in HIDDEN {
      var part := ValuePart(content[k]);
      ValuePartsAppend(content, Visible(keys), [k]);
      assert ValueParts(content, [k]) == [part];
      JoinAppend(p, ValueParts(content, Visible(keys)), [part]);
      assert Join(p, [part]) == Render(p, part) + Join(p, []);
    } else {
      assert Visible(keys) + [] == Visible(keys);
    }
  }

  /** The loops of `unstructuredHash` compute exactly the digest of the joined parts. */
  method UnstructuredHash(p: Platform, u: Content, patches: seq<Patch>) returns (r: Result<Bytes>)
    ensures r == Hash(p, u, patches)
  {
    var config := "";
    var labels := Labels(u);
    if labels.Some? { config := config + p.renderLabels(labels.value); }
    if !IsConfigMap(u) {
      var annotations := MetadataMap(u, "annotations");
      if annotations.Some? { config := config + p.renderLabels(annotations.value); }
    }
    ghost var head := LabelParts(Labels(u)) + LabelParts(Annotations(u));
    assert config == Join(p, head) by {
      JoinAppend(p, LabelParts(Labels(u)), LabelParts(Annotations(u)));
    }
    var content := u;
    if |patches| > 0 {
      var patched := p.patch(u, patches);
      if patched.None? { return Err(OtherError); }
      content := patched.value;
    }
    var body := RenderContent(p, content);
    JoinAppend(p, head, ValueParts(content, Sorted(content.Keys - HIDDEN)));
    return Ok(p.digest(config + body));
  }

  // ---------------------------------------------------------------- faithfulness

  /** No rendering is a proper or improper prefix of the rendering of something else. */
  ghost predicate PrefixFree(p: Platform) {
    forall a: Part, b: Part | Render(p, a) <= Render(p, b) :: a == b
  }

  lemma {:induction false} JoinInjective(p: Platform, a: seq<Part>, b: seq<Part>)
    requires PrefixFree(p) && Join(p, a) == Join(p, b)
    ensures a == b
  {
    if a == [] || b == [] {
      NeverEmpty(p, a);
      NeverEmpty(p, b);
    } else {
      var x, y := Render(p, a[0]), Render(p, b[0]);
      var joined := Join(p, a);
      assert x == joined[..|x|] && y == joined[..|y|];
      assert x <= y || y <= x;
      assert a[0] == b[0];
      assert Join(p, a[1..]) == joined[|x|..] && Join(p, b[1..]) == joined[|y|..];
      JoinInjective(p, a[1..], b[1..]);
      assert a == [a[0]] + a[1..] && b == [b[0]] + b[1..];
    }
  }

  lemma NeverEmpty(p: Platform, a: seq<Part>)
    requires PrefixFree(p)
    ensures Join(p, a) == "" <==> a == []
  {
    if a != [] {
      var other := if a[0] == LabelPart(map[]) then ValuePart(Text("")) else LabelPart(map[]);
      assert !(Render(p, a[0]) <= Render(p, other));
    }
  }

  /** Two objects have the same pre-digest string exactly when they have the same parts. */
  lemma FingerprintFaithful(p: Platform, u1: Content, c1: Content, u2: Content, c2: Content)
    requires PrefixFree(p)
    ensures Join(p, Parts(u1, c1)) == Join(p, Parts(u2, c2)) <==> Parts(u1, c1) == Parts(u2, c2)
  {
    if Join(p, Parts(u1, c1)) == Join(p, Parts(u2, c2)) {
      JoinInjective(p, Parts(u1, c1), Parts(u2, c2));
    }
  }

  lemma {:induction false} ValuePartsEqual(c1: Content, c2: Content, keys: seq<string>)
    requires forall k | k in keys :: k in c1 && k in c2
    ensures ValueParts(c1, keys) == ValueParts(c2, keys) <==> forall k | k in keys :: c1[k] == c2[k]
    ensures |ValueParts(c1, keys)| == |keys|
  {
    if keys != [] {
      ValuePartsEqual(c1, c2, keys[1..]);
      assert keys == [keys[0]] + keys[1..];
      assert ValueParts(c1, keys)[1..] == ValueParts(c1, keys[1..]);
      assert ValueParts(c2, keys)[1..] == ValueParts(c2, keys[1..]);
      assert ValueParts(c1, keys)[0] == ValuePart(c1[keys[0]]) && ValueParts(c2, keys)[0] == ValuePart(c2[keys[0]]);
    }
  }

  ghost predicate AgreeOutsideHidden(c1: Content, c2: Content) {
    c1.Keys - HIDDEN == c2.Keys - HIDDEN && forall k | k in c1.Keys - HIDDEN :: c1[k] == c2[k]
  }

  /** With the same top-level keys and the same presence of labels and of annotations, equal
      pre-digest strings mean equal labels, annotations and visible content, and conversely. */
  lemma FingerprintDecides(p: Platform, u1: Content, c1: Content, u2: Content, c2: Content)
    requires PrefixFree(p)
    requires c1.Keys - HIDDEN == c2.Keys - HIDDEN
    requires Labels(u1).Some? == Labels(u2).Some? && Annotations(u1).Some? == Annotations(u2).Some?
    ensures Join(p, Parts(u1, c1)) == Join(p, Parts(u2, c2)) <==>
            Labels(u1) == Labels(u2) && Annotations(u1) == Annotations(u2) && AgreeOutsideHidden(c1, c2)
  {
    FingerprintFaithful(p, u1, c1, u2, c2);
    var keys := Sorted(c1.Keys - HIDDEN);
    ValuePartsEqual(c1, c2, keys);
    var h1 := LabelParts(Labels(u1)) + LabelParts(Annotations(u1));
    var h2 := LabelParts(Labels(u2)) + LabelParts(Annotations(u2));
    var v1, v2 := ValueParts(c1, keys), ValueParts(c2, keys);
    assert |h1| == |h2|;
    if h1 + v1 == h2 + v2 {
      assert h1 == (h1 + v1)[..|h1|] && h2 == (h2 + v2)[..|h1|];
      assert v1 == (h1 + v1)[|h1|..] && v2 == (h2 + v2)[|h1|..];
      LabelPartsEqual(Labels(u1), Annotations(u1), Labels(u2), Annotations(u2));
    }
  }

  lemma LabelPartsEqual(l1: Option<map<string, string>>, a1: Option<map<string, string>>,
                        l2: Option<map<string, string>>, a2: Option<map<string, string>>)
    requires l1.Some? == l2.Some? && a1.Some? == a2.Some?
    requires LabelParts(l1) + LabelParts(a1) == LabelParts(l2) + LabelParts(a2)
    ensures l1 == l2 && a1 == a2
  {
    var x, y := LabelParts(l1) + LabelParts(a1), LabelParts(l2) + LabelParts(a2);
    if l1.Some? { assert x[0] == LabelPart(l1.value) && y[0] == LabelPart(l2.value); }
    if a1.Some? {
      assert x[|x| - 1] == LabelPart(a1.value);
      assert y[|y| - 1] == LabelPart(a2.value);
    }
  }

  // ---------------------------------------------------------------- what enters, by name

  /** The digest tells apart the two pre-digest strings if they are different. */
  ghost predicate Separates(p: Platform, x: string, y: string) {
    x != y ==> p.digest(x) != p.digest(y)
  }

  /** Whatever the labels and annotations are, a difference at any key but `metadata` and `status`
      shows in the pre-digest string. */
  lemma OtherKeysAreSeen(p: Platform, u1: Content, c1: Content, u2: Content, c2: Content, k: string)
    requires PrefixFree(p) && c1.Keys == c2.Keys
    requires k in c1 && k != "metadata" && k != "status" && c1[k] != c2[k]
    ensures Join(p, Parts(u1, c1)) != Join(p, Parts(u2, c2))
  {
    var keys := Sorted(c1.Keys - HIDDEN);
    assert k in keys;
    ValuePartsEqual(c1, c2, keys);
    ValuePartsEqual(c2, c1, keys);
    FingerprintFaithful(p, u1, c1, u2, c2);
    var v1, v2 := ValueParts(c1, keys), ValueParts(c2, keys);
    var a, b := Parts(u1, c1), Parts(u2, c2);
    assert a[|a| - |keys|..] == v1 && b[|b| - |keys|..] == v2;
  }

  /** Objects that differ at most at `metadata` and `status`, and have the same labels and
      annotations, have the same pre-digest string. */
  lemma MetadataAndStatusAreHidden(p: Platform, u1: Content, c1: Content, u2: Content, c2: Content)
    requires forall k | k != "metadata" && k != "status" ::
               (k in c1 <==> k in c2) && (k in c1 && k in c2 ==> c1[k] == c2[k])
    requires Labels(u1) == Labels(u2) && Annotations(u1) == Annotations(u2)
    ensures Join(p, Parts(u1, c1)) == Join(p, Parts(u2, c2))
  {
    assert c1.Keys - HIDDEN == c2.Keys - HIDDEN;
    ValuePartsEqual(c1, c2, Sorted(c1.Keys - HIDDEN));
  }

  /** A field of the metadata that is a map of strings. */
  predicate HasStrings(u: Content, field: string, m: map<string, string>) {
    && "metadata" in u && u["metadata"].Fields?
    && field in u["metadata"].fields && u["metadata"].fields[field].Fields?
    && var f := u["metadata"].fields[field].fields;
       f.Keys == m.Keys && forall k | k in m :: f[k] == Text(m[k])
  }

  /** The labels are `metadata.labels`; the annotations are `metadata.annotations`, unless the
      object is a ConfigMap. */
  lemma LabelsAndAnnotations(u: Content, m: map<string, string>)
    ensures Labels(u) == Some(m) <==> HasStrings(u, "labels", m)
    ensures Annotations(u) == Some(m) <==>
            HasStrings(u, "annotations", m) && !("kind" in u && u["kind"] == Text("ConfigMap"))
  {
    StringsRead(u, "labels", m);
    StringsRead(u, "annotations", m);
  }

  lemma StringsRead(u: Content, field: string, m: map<string, string>)
    ensures MetadataMap(u, field) == Some(m) <==> HasStrings(u, field, m)
  {
    if HasStrings(u, field, m) {
      var f := u["metadata"].fields[field].fields;
      assert m == map k | k in f :: f[k].text;
    }
  }

  /** A change of labels changes the digest, and so does a change of annotations exactly if the
      object is not a ConfigMap, provided that the digest separates the strings. */
  lemma LabelChangesAreSeen(p: Platform, u1: Content, u2: Content, field: string, m1: map<string, string>,
                            m2: map<string, string>)
    requires PrefixFree(p) && Separates(p, Join(p, Parts(u1, u1)), Join(p, Parts(u2, u2)))
    requires field == "labels" || field == "annotations"
    requires HasStrings(u1, field, m1) && HasStrings(u2, field, m2) && m1 != m2
    requires var other := if field == "labels" then "annotations" else "labels";
             MetadataMap(u1, other) == MetadataMap(u2, other)
    requires u1.Keys == u2.Keys && forall k | k in u1 && k != "metadata" && k != "status" :: u1[k] == u2[k]
    ensures Hash(p, u1, []) != Hash(p, u2, []) <==>
            field == "labels" || !("kind" in u1 && u1["kind"] == Text("ConfigMap"))
  {
    StringsRead(u1, field, m1);
    StringsRead(u2, field, m2);
    FingerprintDecides(p, u1, u1, u2, u2);
  }

  /** The string itself, for an object and what the patches make of it. */
  lemma PreDigestString(p: Platform, u: Content, patches: seq<Patch>, c: Content, labels: map<string, string>,
                        annotations: map<string, string>)
    requires patches != [] && p.patch(u, patches) == Some(c)
    requires HasStrings(u, "labels", labels) && HasStrings(u, "annotations", annotations)
    requires "kind" in u && u["kind"] != Text("ConfigMap")
    requires c.Keys == {"apiVersion", "kind", "metadata", "spec", "status"}
    ensures Hash(p, u, patches) ==
            Ok(p.digest(p.renderLabels(labels) + p.renderLabels(annotations) +
                        p.renderValue(c["apiVersion"]) + p.renderValue(c["kind"]) + p.renderValue(c["spec"])))
  {
    HeadString(p, u, labels, annotations);
    ThreeVisibleKeys(p, c);
    HashString(p, u, patches, c, p.renderLabels(labels) + p.renderLabels(annotations),
               p.renderValue(c["apiVersion"]) + p.renderValue(c["kind"]) + p.renderValue(c["spec"]));
    Associate(p.renderLabels(labels) + p.renderLabels(annotations),
              p.renderValue(c["apiVersion"]), p.renderValue(c["kind"]), p.renderValue(c["spec"]));
  }

  lemma Associate(head: string, x: string, y: string, z: string)
    ensures head + (x + y + z) == head + x + y + z
  {
  }

  lemma HeadString(p: Platform, u: Content, labels: map<string, string>, annotations: map<string, string>)
    requires HasStrings(u, "labels", labels) && HasStrings(u, "annotations", annotations)
    requires "kind" in u && u["kind"] != Text("ConfigMap")
    ensures Join(p, LabelParts(Labels(u)) + LabelParts(Annotations(u))) ==
            p.renderLabels(labels) + p.renderLabels(annotations)
  {
    LabelsAndAnnotations(u, labels);
    LabelsAndAnnotations(u, annotations);
    JoinAppend(p, [LabelPart(labels)], [LabelPart(annotations)]);
    JoinOne(p, LabelPart(labels));
    JoinOne(p, LabelPart(annotations));
  }

  lemma HashString(p: Platform, u: Content, patches: seq<Patch>, c: Content, head: string, body: string)
    requires patches != [] && p.patch(u, patches) == Some(c)
    requires Join(p, LabelParts(Labels(u)) + LabelParts(Annotations(u))) == head
    requires Join(p, ValueParts(c, Sorted(c.Keys - HIDDEN))) == body
    ensures Hash(p, u, patches) == Ok(p.digest(head + body))
  {
    JoinAppend(p, LabelParts(Labels(u)) + LabelParts(Annotations(u)), ValueParts(c, Sorted(c.Keys - HIDDEN)));
  }

  lemma JoinOne(p: Platform, part: Part)
    ensures Join(p, [part]) == Render(p, part)
  {
    assert [part][1..] == [];
  }

  lemma ThreeVisibleKeys(p: Platform, c: Content)
    requires c.Keys == {"apiVersion", "kind", "metadata", "spec", "status"}
    ensures Join(p, ValueParts(c, Sorted(c.Keys - HIDDEN))) ==
            p.renderValue(c["apiVersion"]) + p.renderValue(c["kind"]) + p.renderValue(c["spec"])
  {
    var keys := ["apiVersion", "kind", "spec"];
    assert c.Keys - HIDDEN == {"apiVersion", "kind", "spec"};
    assert LexLe("apiVersion", "kind") && LexLe("apiVersion", "spec") && LexLe("kind", "spec");
    SortedEnumerationUnique(keys, Sorted(c.Keys - HIDDEN), c.Keys - HIDDEN);
    ThreeValues(p, c, "apiVersion", "kind", "spec");
  }

  lemma ThreeValues(p: Platform, c: Content, k1: string, k2: string, k3: string)
    requires k1 in c && k2 in c && k3 in c
    ensures Join(p, ValueParts(c, [k1, k2, k3])) == p.renderValue(c[k1]) + p.renderValue(c[k2]) + p.renderValue(c[k3])
  {
    var a, b, d := ValuePart(c[k1]), ValuePart(c[k2]), ValuePart(c[k3]);
    assert [k1, k2, k3] == [k1] + ([k2] + [k3]);
    OneValue(c, k1);
    OneValue(c, k2);
    OneValue(c, k3);
    ValuePartsAppend(c, [k2], [k3]);
    ValuePartsAppend(c, [k1], [k2] + [k3]);
    JoinAppend(p, [a], [b] + [d]);
    JoinAppend(p, [b], [d]);
    JoinOne(p, a);
    JoinOne(p, b);
    JoinOne(p, d);
  }

  lemma OneValue(c: Content, k: string)
    requires k in c
    ensures ValueParts(c, [k]) == [ValuePart(c[k])]
  {
    assert [k][1..] == [];
  }

  // ---------------------------------------------------------------- key names

  /** The two names sort in the same place among `others`. */
  predicate SameRank(k1: string, k2: string, others: set<string>) {
    forall k | k in others :: LexLe(k1, k) <==> LexLe(k2, k)
  }

  lemma {:induction false} SameValues(c1: Content, keys1: seq<string>, c2: Content, keys2: seq<string>)
    requires (forall k | k in keys1 :: k in c1) && (forall k | k in keys2 :: k in c2)
    requires |keys1| == |keys2| && forall j | 0 <= j < |keys1| :: c1[keys1[j]] == c2[keys2[j]]
    ensures ValueParts(c1, keys1) == ValueParts(c2, keys2)
  {
    if keys1 != [] {
      assert forall j | 0 <= j < |keys1| - 1 :: keys1[1..][j] == keys1[j + 1] && keys2[1..][j] == keys2[j + 1];
      SameValues(c1, keys1[1..], c2, keys2[1..]);
    }
  }

  /** Renaming a key in an ascending enumeration without changing its rank. */
  lemma RenamedStaysSorted(keys: seq<string>, others: set<string>, k1: string, k2: string, i: nat)
    requires SortedEnumeration(keys, others + {k1}) && k1 !in others && k2 !in others && SameRank(k1, k2, others)
    requires i < |keys| && keys[i] == k1
    ensures SortedEnumeration(keys[i := k2], others + {k2})
  {
    var renamed := keys[i := k2];
    forall j | 0 <= j < |keys| && j != i ensures keys[j] in others {
      assert keys[j] in keys;
    }
    forall j | 0 <= j < i ensures LexLe(renamed[j], k2) {
      LexTotal(keys[j], k1);
      LexTotal(keys[j], k2);
    }
    forall x | x in others ensures x in renamed {
      assert x in keys;
      var j :| 0 <= j < |keys| && keys[j] == x;
      assert renamed[j] == x;
    }
    assert renamed[i] == k2;
  }

  /** Key names are not rendered: moving a value to another key of the same rank among the
      visible keys of the object goes unnoticed, so equal top-level keys are needed above. */
  lemma KeyNamesAreNotFingerprinted(c: Content, v: Value, k1: string, k2: string)
    requires "kind" in c && "metadata" in c
    requires k1 !in c.Keys + HIDDEN && k2 !in c.Keys + HIDDEN && SameRank(k1, k2, c.Keys - HIDDEN)
    ensures Parts(c[k1 := v], c[k1 := v]) == Parts(c[k2 := v], c[k2 := v])
  {
    var c1, c2, others := c[k1 := v], c[k2 := v], c.Keys - HIDDEN;
    assert c1.Keys - HIDDEN == others + {k1} && c2.Keys - HIDDEN == others + {k2};
    var keys := Sorted(others + {k1});
    assert k1 in keys;
    var i :| 0 <= i < |keys| && keys[i] == k1;
    RenamedStaysSorted(keys, others, k1, k2, i);
    SortedEnumerationUnique(keys[i := k2], Sorted(others + {k2}), others + {k2});
    assert forall j | 0 <= j < |keys| && j != i :: keys[j] in keys && keys[j] != k1;
    SameValues(c1, keys, c2, keys[i := k2]);
    SameHead(c, v, k1);
    SameHead(c, v, k2);
  }

  /** Labels and annotations are read from `kind` and `metadata` alone. */
  lemma SameHead(c: Content, v: Value, k: string)
    requires "kind" in c && "metadata" in c && k !in c
    ensures Labels(c[k := v]) == Labels(c) && Annotations(c[k := v]) == Annotations(c)
  {
  }

  /** A ConfigMap whose data moves from `data` to `binaryData` keeps its baseline. */
  lemma BinaryDataGoesUnnoticed(p: Platform, apiVersion: Value, metadata: Value, data: Value)
    ensures var c := map["apiVersion" := apiVersion, "kind" := Text("ConfigMap"), "metadata" := metadata];
            Hash(p, c["data" := data], []) == Hash(p, c["binaryData" := data], [])
  {
    var c := map["apiVersion" := apiVersion, "kind" := Text("ConfigMap"), "metadata" := metadata];
    assert c.Keys - HIDDEN == {"apiVersion", "kind"};
    assert LexLe("data", "kind") && LexLe("binaryData", "kind");
    assert !LexLe("data", "apiVersion") && !LexLe("binaryData", "apiVersion");
    KeyNamesAreNotFingerprinted(c, data, "data", "binaryData");
  }

  // ---------------------------------------------------------------- invariance

  /** The baseline sees nothing of status, of metadata other than labels and annotations, of
      a ConfigMap's annotations, or of whatever the patches remove from both objects. */
  lemma FingerprintInvariant(p: Platform, u1: Content, u2: Content, patches: seq<Patch>)
    requires Labels(u1) == Labels(u2) && Annotations(u1) == Annotations(u2)
    requires Patched(p, u1, patches).Some? == Patched(p, u2, patches).Some?
    requires Patched(p, u1, patches).Some? ==>
               AgreeOutsideHidden(Patched(p, u1, patches).value, Patched(p, u2, patches).value)
    ensures Hash(p, u1, patches) == Hash(p, u2, patches)
  {
    if Patched(p, u1, patches).Some? {
      var c1, c2 := Patched(p, u1, patches).value, Patched(p, u2, patches).value;
      ValuePartsEqual(c1, c2, Sorted(c1.Keys - HIDDEN));
    }
  }

  predicate IsResourceSummary(u: Content) {
    "kind" in u && u["kind"] == Text("ResourceSummary")
  }

  predicate DrawnFrom(patches: seq<Patch>, used: set<Patch>) {
    forall x | x in patches :: x in used
  }

  /** The patcher does the same to `u`, as far as it is visible, before and after its status
      is written. */
  ghost predicate PatchIgnoresStatus(p: Platform, u: Content, s: Status, patches: seq<Patch>) {
    var before, after := p.patch(u, patches), p.patch(p.withStatus(u, s), patches);
    before.Some? == after.Some? && (before.Some? ==> AgreeOutsideHidden(after.value, before.value))
  }

  /** Writing the status of a ResourceSummary changes only its status and metadata outside
      labels and annotations, and no list of the patches in use depends on those. */
  ghost predicate StatusStaysHidden(p: Platform, used: set<Patch>) {
    && (forall u, s | IsResourceSummary(u) ::
          && Labels(p.withStatus(u, s)) == Labels(u)
          && Annotations(p.withStatus(u, s)) == Annotations(u)
          && AgreeOutsideHidden(p.withStatus(u, s), u))
    && (forall u, s, patches | IsResourceSummary(u) && DrawnFrom(patches, used) ::
          PatchIgnoresStatus(p, u, s, patches))
  }

  /** A status write to a tracked ResourceSummary cannot change its baseline. */
  lemma StatusWriteInvisible(p: Platform, used: set<Patch>, u: Content, s: Status, patches: seq<Patch>)
    requires StatusStaysHidden(p, used) && IsResourceSummary(u) && DrawnFrom(patches, used)
    ensures Hash(p, p.withStatus(u, s), patches) == Hash(p, u, patches)
    ensures IsResourceSummary(p.withStatus(u, s))
  {
    assert PatchIgnoresStatus(p, u, s, patches);
    FingerprintInvariant(p, p.withStatus(u, s), u, patches);
    assert "kind" in u.Keys - HIDDEN;
  }
}
