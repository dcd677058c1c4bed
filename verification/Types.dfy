/** The values shared by the tracking manager, the evaluator and the reconciler. */
module Types {

  datatype Option<+T> = None | Some(value: T)

  /** The two ways a call can fail that the code tells apart (`apierrors.IsNotFound`). */
  datatype Error = NotFound | OtherError

  datatype Result<+T> = Ok(value: T) | Err(error: Error)

  newtype Byte = x: int | 0 <= x < 256

  /** Go byte slices and Go strings; a nil slice is the empty sequence. */
  type Bytes = seq<Byte>

  datatype Gvk = Gvk(group: string, version: string, kind: string)

  /** `corev1.ObjectReference`; the API version and the kind are kept as one GVK. */
  datatype ObjectRef = ObjectRef(gvk: Gvk, namespace: string, name: string)

  datatype ResourceType = Resource | KustomizeResource | HelmResource

  /** The order in which a drift is reported. */
  const TYPE_ORDER: seq<ResourceType> := [Resource, HelmResource, KustomizeResource]

  /** One row of a ResourceSummary spec, after namespace defaulting. */
  datatype Entry = Entry(ref: ObjectRef, ignore: bool)

  /** One row of a status hash list. */
  datatype HashEntry = HashEntry(resource: Entry, text: Bytes)

  /** The changed flag and the hash list that the status keeps for one resource type. */
  datatype Section = Section(changed: bool, hashes: seq<HashEntry>)

  datatype Status = Status(resources: Section, kustomize: Section, helm: Section) {
    function Get(t: ResourceType): Section {
      match t
      case Resource => resources
      case KustomizeResource => kustomize
      case HelmResource => helm
    }

    function Set(t: ResourceType, s: Section): (status: Status)
      ensures forall t' :: status.Get(t') == if t' == t then s else Get(t')
    {
      match t
      case Resource => this.(resources := s)
      case KustomizeResource => this.(kustomize := s)
      case HelmResource => this.(helm := s)
    }
  }

  type Patch = string

  /** A ResourceSummary as the API server stores it. */
  datatype Summary = Summary(patches: seq<Patch>, status: Status, deleting: bool)

  /** `Items()` returns some duplicate-free enumeration of a set. */
  predicate Enumerates<T(==)>(items: seq<T>, s: set<T>) {
    && (forall i, j | 0 <= i < j < |items| :: items[i] != items[j])
    && (forall x | x in items :: x in s)
    && (forall x | x in s :: x in items)
  }

  lemma EmptyEnumeration<T>(items: seq<T>, s: set<T>)
    requires Enumerates(items, s)
    ensures items == [] <==> s == {}
  {
    assert forall x :: x in s <==> x in items;
    if items != [] { assert items[0] in s; }
  }

  function Elements<T>(s: seq<T>): set<T> {
    set x | x in s
  }

  /** `fmt.Sprintf("%x", b)`. */
  function Hex(b: Bytes): (r: Bytes)
    ensures |r| == 2 * |b|
  {
    if b == [] then [] else [HexDigit(b[0] as int / 16), HexDigit(b[0] as int % 16)] + Hex(b[1..])
  }

  function HexDigit(n: int): Byte
    requires 0 <= n < 16
  {
    if n < 10 then (48 + n) as Byte else (87 + n) as Byte
  }

  const HEX_DIGITS: string := "0123456789abcdef"

  /** Every byte is written as its high digit and its low digit. */
  lemma {:induction false} HexDigits(b: Bytes, i: nat)
    requires i < |b|
    ensures Hex(b)[2 * i] as int == HEX_DIGITS[b[i] as int / 16] as int
    ensures Hex(b)[2 * i + 1] as int == HEX_DIGITS[b[i] as int % 16] as int
  {
    if i == 0 {
      HexDigitOf(b[0] as int / 16);
      HexDigitOf(b[0] as int % 16);
    } else {
      HexDigits(b[1..], i - 1);
      assert Hex(b)[2..] == Hex(b[1..]);
    }
  }

  lemma HexDigitOf(n: int)
    requires 0 <= n < 16
    ensures HexDigit(n) as int == HEX_DIGITS[n] as int
  {
  }

  /** Two baselines are written as the same text only if they are the same baseline. */
  lemma {:induction false} HexInjective(a: Bytes, b: Bytes)
    requires Hex(a) == Hex(b)
    ensures a == b
  {
    assert |a| == |b|;
    if a != [] {
      assert Hex(a)[0] == Hex(b)[0] && Hex(a)[1] == Hex(b)[1];
      assert Hex(a)[2..] == Hex(a[1..]) && Hex(b)[2..] == Hex(b[1..]);
      HexInjective(a[1..], b[1..]);
      assert a == [a[0]] + a[1..] && b == [b[0]] + b[1..];
    }
  }
}
