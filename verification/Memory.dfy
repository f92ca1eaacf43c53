/** The C heap the linked structures live in.

    `malloc` adds a key to a `Heap`, `free` removes it, and every dereference is a map
    selection, so the verifier demands a proof that the node is still allocated each time
    a pointer is followed.  Address 0 is NULL.
  */
module Memory {
  type Addr = nat

  datatype Option<+T> = None | Some(value: T)

  datatype Node<+T> = Node(prev: Addr, next: Addr, val: T)

  type Heap<T> = map<Addr, Node<T>>

  ghost predicate Distinct<T>(s: seq<T>) {
    forall i, j :: 0 <= i < j < |s| ==> s[i] != s[j]
  }

  /** Element i, or NULL when i is out of range. */
  function At(s: seq<Addr>, i: int): Addr {
    if 0 <= i < |s| then s[i] else 0
  }

  /** The nodes of `s` form a NULL-terminated list through their `next` fields. */
  ghost predicate Chain<T>(h: Heap<T>, s: seq<Addr>) {
    && Distinct(s)
    && forall i :: 0 <= i < |s| ==> NextOk(h, s, i)
  }

  ghost predicate NextOk<T>(h: Heap<T>, s: seq<Addr>, i: nat)
    requires i < |s|
  {
    s[i] != 0 && s[i] in h && h[s[i]].next == At(s, i + 1)
  }

  /** ... and a doubly linked one, through `prev` as well. */
  ghost predicate Linked<T>(h: Heap<T>, s: seq<Addr>) {
    && Distinct(s)
    && forall i :: 0 <= i < |s| ==> LinkOk(h, s, i)
  }

  ghost predicate LinkOk<T>(h: Heap<T>, s: seq<Addr>, i: nat)
    requires i < |s|
  {
    s[i] != 0 && s[i] in h && h[s[i]].next == At(s, i + 1) && h[s[i]].prev == At(s, i - 1)
  }

  function InsertAt<T>(s: seq<T>, k: nat, x: T): (r: seq<T>)
    requires k <= |s|
  {
    s[..k] + [x] + s[k..]
  }

  function RemoveAt<T>(s: seq<T>, k: nat): (r: seq<T>)
    requires k < |s|
  {
    s[..k] + s[k + 1..]
  }

  /** Where x stands in s, or |s|. */
  function IndexOf<T(==)>(s: seq<T>, x: T): (k: nat)
    ensures k <= |s|
    ensures k < |s| ==> s[k] == x
    ensures k == |s| <==> x !in s
    ensures forall i :: 0 <= i < k ==> s[i] != x
  {
    if s == [] then 0
    else if s[0] == x then 0
    else 1 + IndexOf(s[1..], x)
  }

  /** s without its first x. */
  function Without<T(==)>(s: seq<T>, x: T): (r: seq<T>) {
    var k := IndexOf(s, x);
    if k < |s| then RemoveAt(s, k) else s
  }

  lemma InsertAtFacts<T>(s: seq<T>, k: nat, x: T)
    requires k <= |s|
    ensures var r := InsertAt(s, k, x);
      && |r| == |s| + 1 && r[k] == x
      && (forall i :: 0 <= i < k ==> r[i] == s[i])
      && (forall i :: k < i < |r| ==> r[i] == s[i - 1])
    ensures forall y :: y in InsertAt(s, k, x) <==> y in s || y == x
    ensures Distinct(s) && x !in s ==> Distinct(InsertAt(s, k, x))
  {
    var r := InsertAt(s, k, x);
    assert forall i :: 0 <= i < |r| ==> r[i] == if i < k then s[i] else if i == k then x else s[i - 1];
    forall y ensures y in r <==> y in s || y == x {
      InsertAtHas(s, k, x, y);
    }
  }

  lemma InsertAtHas<T>(s: seq<T>, k: nat, x: T, y: T)
    requires k <= |s|
    ensures y in InsertAt(s, k, x) <==> y in s || y == x
  {
    assert s == s[..k] + s[k..];
  }

  lemma RemoveAtFacts<T>(s: seq<T>, k: nat)
    requires k < |s|
    ensures var r := RemoveAt(s, k);
      && |r| == |s| - 1
      && (forall i :: 0 <= i < k ==> r[i] == s[i])
      && (forall i :: k <= i < |r| ==> r[i] == s[i + 1])
  {
  }

  lemma WithoutFacts<T>(s: seq<T>, x: T)
    requires Distinct(s) && x in s
    ensures var r := Without(s, x); var k := IndexOf(s, x);
      && k < |s| && s[k] == x && |r| == |s| - 1
      && (forall i :: 0 <= i < k ==> r[i] == s[i])
      && (forall i :: k <= i < |r| ==> r[i] == s[i + 1])
      && Distinct(r)
    ensures forall y :: y in Without(s, x) <==> y in s && y != x
  {
    var k := IndexOf(s, x);
    RemoveAtFacts(s, k);
    WithoutMembers(s, k);
  }

  lemma WithoutMembers<T>(s: seq<T>, k: nat)
    requires Distinct(s) && k < |s|
    ensures forall y :: y in RemoveAt(s, k) <==> y in s && y != s[k]
  {
    var r := RemoveAt(s, k);
    RemoveAtFacts(s, k);
    forall y | y in s && y != s[k] ensures y in r {
      var i :| 0 <= i < |s| && s[i] == y;
      assert r[if i < k then i else i - 1] == y;
    }
    forall y | y in r ensures y in s && y != s[k] {
      var i :| 0 <= i < |r| && r[i] == y;
      assert s[if i < k then i else i + 1] == y;
    }
  }

  function SetNext<T>(h: Heap<T>, a: Addr, next: Addr): Heap<T> {
    if a in h then h[a := h[a].(next := next)] else h
  }

  function SetPrev<T>(h: Heap<T>, a: Addr, prev: Addr): Heap<T> {
    if a in h then h[a := h[a].(prev := prev)] else h
  }

  /** The heap after node x was linked in between p and n (either may be NULL). */
  function LinkIn<T>(h: Heap<T>, p: Addr, x: Addr, n: Addr): Heap<T>
    requires x in h
  {
    SetPrev(SetNext(h[x := h[x].(prev := p, next := n)], p, x), n, x)
  }

  /** The heap after the neighbours of node x were pointed at each other. */
  function LinkOut<T>(h: Heap<T>, x: Addr): Heap<T>
    requires x in h
  {
    SetPrev(SetNext(h, h[x].prev, h[x].next), h[x].next, h[x].prev)
  }

  /** h' differs from h in the links of nodes of s at most. */
  ghost predicate OnlyLinks<T>(h: Heap<T>, h': Heap<T>, s: seq<Addr>) {
    && h'.Keys == h.Keys
    && forall a :: a in h ==> h'[a].val == h[a].val && (a in s || h'[a] == h[a])
  }

  lemma OnlyLinksTrans<T>(h: Heap<T>, h': Heap<T>, h'': Heap<T>, x: Addr, s: seq<Addr>)
    requires OnlyLinks(h, h', [x]) && OnlyLinks(h', h'', [x] + s)
    ensures OnlyLinks(h, h'', [x] + s)
  {
    forall a | a in h ensures h''[a].val == h[a].val && (a in [x] + s || h''[a] == h[a]) {
      assert a in [x] ==> a in [x] + s;
    }
  }

  lemma LinkInFacts<T>(h: Heap<T>, s: seq<Addr>, k: nat, x: Addr)
    requires Linked(h, s) && k <= |s| && x != 0 && x !in s && x in h && 0 !in h
    ensures Linked(LinkIn(h, At(s, k - 1), x, At(s, k)), InsertAt(s, k, x))
    ensures OnlyLinks(h, LinkIn(h, At(s, k - 1), x, At(s, k)), [x] + s)
  {
    var h' := LinkIn(h, At(s, k - 1), x, At(s, k));
    var r := InsertAt(s, k, x);
    InsertAtFacts(s, k, x);
    if k > 0 { assert LinkOk(h, s, k - 1); }
    if k < |s| { assert LinkOk(h, s, k); }
    forall i | 0 <= i < |r| ensures LinkOk(h', r, i) {
      if i < k { assert LinkOk(h, s, i); } else if i > k { assert LinkOk(h, s, i - 1); }
    }
  }

  lemma LinkOutFacts<T>(h: Heap<T>, s: seq<Addr>, x: Addr)
    requires Linked(h, s) && x in s && x in h && 0 !in h
    ensures Linked(LinkOut(h, x), Without(s, x))
    ensures OnlyLinks(h, LinkOut(h, x), Without(s, x))
  {
    var h' := LinkOut(h, x);
    var r := Without(s, x);
    var k := IndexOf(s, x);
    WithoutFacts(s, x);
    assert LinkOk(h, s, k);
    if k > 0 { assert LinkOk(h, s, k - 1) && s[k - 1] == r[k - 1]; }
    if k + 1 < |s| { assert LinkOk(h, s, k + 1) && s[k + 1] == r[k]; }
    forall i | 0 <= i < |r| ensures LinkOk(h', r, i) {
      if i < k { assert LinkOk(h, s, i); } else { assert LinkOk(h, s, i + 1); }
    }
  }

  lemma NullMeansEmpty<T>(h: Heap<T>, s: seq<Addr>)
    requires Linked(h, s)
    ensures At(s, 0) == 0 <==> s == []
  {
    if s != [] { assert LinkOk(h, s, 0); }
  }

  lemma NullEnds<T>(h: Heap<T>, s: seq<Addr>, k: nat)
    requires Chain(h, s)
    ensures At(s, k) == 0 <==> k >= |s|
  {
    if k < |s| { assert NextOk(h, s, k); }
  }

  /** Lists that share no changed node keep their shape. */
  lemma LinkedFrame<T>(h: Heap<T>, h': Heap<T>, s: seq<Addr>)
    requires Linked(h, s)
    requires forall a :: a in s && a in h ==> a in h' && h'[a].next == h[a].next && h'[a].prev == h[a].prev
    ensures Linked(h', s)
  {
    forall i | 0 <= i < |s| ensures LinkOk(h', s, i) { assert LinkOk(h, s, i); }
  }

  lemma ChainFrame<T>(h: Heap<T>, h': Heap<T>, s: seq<Addr>)
    requires Chain(h, s)
    requires forall a :: a in s && a in h ==> a in h' && h'[a].next == h[a].next
    ensures Chain(h', s)
  {
    forall i | 0 <= i < |s| ensures NextOk(h', s, i) { assert NextOk(h, s, i); }
  }
}
