/**
 The live event kinds and the event value delivered to subscribers.

 An event kind is one of twelve lifecycle or action identifiers. Collaborators
 rely on their ordinals, which start at 1 (so that 0 is never a named kind)
 and follow declaration order.
 */
module Events {

  datatype Option<T> = None | Some(value: T)

  /** The twelve named event kinds, in declaration order. */
  datatype EventKind =
    | APICreate | APIUpdate | APIDelete
    | AdminCreate | AdminUpdate | AdminDelete
    | Save | Delete | Approve | Reject | Enable | Disable

  /** The kinds in the order they are declared. */
  const AllKinds: seq<EventKind> :=
    [APICreate, APIUpdate, APIDelete, AdminCreate, AdminUpdate, AdminDelete,
     Save, Delete, Approve, Reject, Enable, Disable]

  /** The integer value of a kind; the enumeration starts at one. */
  function Ordinal(k: EventKind): (n: int)
    ensures 1 <= n <= |AllKinds|
    ensures AllKinds[n - 1] == k
  {
    match k
    case APICreate => 1
    case APIUpdate => 2
    case APIDelete => 3
    case AdminCreate => 4
    case AdminUpdate => 5
    case AdminDelete => 6
    case Save => 7
    case Delete => 8
    case Approve => 9
    case Reject => 10
    case Enable => 11
    case Disable => 12
  }

  /** The named kind with a given integer value, if there is one. */
  function KindOf(n: int): (r: Option<EventKind>)
    ensures r.Some? <==> 1 <= n <= |AllKinds|
    ensures r.Some? ==> Ordinal(r.value) == n
  {
    if 1 <= n <= |AllKinds| then Some(AllKinds[n - 1]) else None
  }

  /** Converting a kind to its ordinal and back gives the kind again. */
  lemma OrdinalRoundTrip(k: EventKind)
    ensures KindOf(Ordinal(k)) == Some(k)
  {
  }

  /** Each constant is one more than the one declared before it: the ordinals
      are exactly 1..12, from APICreate to Disable. */
  lemma OrdinalsFollowDeclarationOrder()
    ensures |AllKinds| == 12
    ensures Ordinal(APICreate) == 1 && Ordinal(Disable) == 12
    ensures forall i :: 0 <= i < |AllKinds| ==> Ordinal(AllKinds[i]) == i + 1
    ensures forall k: EventKind :: k in AllKinds
  {
    forall i | 0 <= i < |AllKinds|
      ensures Ordinal(AllKinds[i]) == i + 1
    {
      var k := AllKinds[i];
      assert AllKinds[Ordinal(k) - 1] == k;
      AllKindsDistinct(i, Ordinal(k) - 1);
    }
    forall k: EventKind
      ensures k in AllKinds
    {
      assert AllKinds[Ordinal(k) - 1] == k;
    }
  }

  /** No two positions of the declaration list hold the same kind. */
  lemma AllKindsDistinct(i: int, j: int)
    requires 0 <= i < |AllKinds| && 0 <= j < |AllKinds|
    requires AllKinds[i] == AllKinds[j]
    ensures i == j
  {
  }

  /** No named kind has ordinal 0. */
  lemma NoKindIsZero(k: EventKind)
    ensures Ordinal(k) != 0
  {
  }

  /** The named kinds are pairwise distinct as integer constants. */
  lemma OrdinalInjective(a: EventKind, b: EventKind)
    requires Ordinal(a) == Ordinal(b)
    ensures a == b
  {
  }

  /** One notification: the kind of event and the content it concerns. */
  datatype LiveEvent<T> = LiveEvent(Type: EventKind, content: T)
  {
    /** The content payload carried by the event. Being a function on a
        value, it leaves the event itself unchanged. */
    function Content(): (c: T)
      ensures LiveEvent(Type, c) == this
    {
      content
    }
  }

  /** Reading the content of an event gives back the payload it was built
      with, and its kind is the one it was built with. */
  lemma ContentOfBuiltEvent<T>(k: EventKind, data: T)
    ensures LiveEvent(k, data).Content() == data
    ensures LiveEvent(k, data).Type == k
  {
  }
}
