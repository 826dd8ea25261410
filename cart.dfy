/**
 * The cart table as a sequence of lines, with the two filters the cart views
 * apply to it: the lines of one user (list) and the lines of everybody else
 * (what a clear leaves behind).
 */
module Cart {
  import opened Domain

  /** The lines owned by `u`, in table order. */
  function LinesOf(cart: seq<CartLine>, u: UserId): (r: seq<CartLine>)
    ensures forall i :: 0 <= i < |r| ==> r[i].user == u
    ensures forall l :: l in cart && l.user == u ==> l in r
    ensures forall l :: l in r ==> l in cart
  {
    if cart == [] then []
    else
      (if cart[0].user == u then [cart[0]] else []) + LinesOf(cart[1..], u)
  }

  /** The lines not owned by `u`, in table order. */
  function LinesNotOf(cart: seq<CartLine>, u: UserId): (r: seq<CartLine>)
    ensures forall i :: 0 <= i < |r| ==> r[i].user != u
    ensures forall l :: l in cart && l.user != u ==> l in r
    ensures forall l :: l in r ==> l in cart
  {
    if cart == [] then []
    else
      (if cart[0].user != u then [cart[0]] else []) + LinesNotOf(cart[1..], u)
  }

  /**
   * Splitting the table by owner loses no line and invents none, counting
   * repeated lines: `u`'s listing holds every copy of each of `u`'s lines.
   */
  lemma {:induction false} OwnerSplitIsPartition(cart: seq<CartLine>, u: UserId)
    ensures multiset(LinesOf(cart, u)) + multiset(LinesNotOf(cart, u)) == multiset(cart)
  {
    if cart != [] {
      OwnerSplitIsPartition(cart[1..], u);
      assert cart == [cart[0]] + cart[1..];
      if cart[0].user == u {
        assert LinesOf(cart, u) == [cart[0]] + LinesOf(cart[1..], u);
        assert LinesNotOf(cart, u) == LinesNotOf(cart[1..], u);
      } else {
        assert LinesOf(cart, u) == LinesOf(cart[1..], u);
        assert LinesNotOf(cart, u) == [cart[0]] + LinesNotOf(cart[1..], u);
      }
    }
  }

  /** Filtering by owner distributes over concatenation. */
  lemma {:induction false} LinesOfAppend(a: seq<CartLine>, b: seq<CartLine>, u: UserId)
    ensures LinesOf(a + b, u) == LinesOf(a, u) + LinesOf(b, u)
  {
    if a == [] {
      assert a + b == b;
    } else {
      assert (a + b)[1..] == a[1..] + b;
      LinesOfAppend(a[1..], b, u);
    }
  }

  /**
   * After a line is appended, its owner's listing gains exactly that line
   * at the end, and every other user's listing is unchanged.
   */
  lemma AppendedLineIsListed(cart: seq<CartLine>, line: CartLine, v: UserId)
    ensures LinesOf(cart + [line], v) ==
      if v == line.user then LinesOf(cart, v) + [line] else LinesOf(cart, v)
  {
    LinesOfAppend(cart, [line], v);
    assert LinesOf([line], v) == (if line.user == v then [line] else []) + LinesOf([], v);
  }

  /** Unfolding the owner filter on a sequence built with a first line. */
  lemma LinesOfCons(l: CartLine, s: seq<CartLine>, v: UserId)
    ensures LinesOf([l] + s, v) == (if l.user == v then [l] else []) + LinesOf(s, v)
  {
  }

  /** Clearing `u`'s lines leaves `u` with an empty listing. */
  lemma {:induction false} ClearEmptiesOwnListing(cart: seq<CartLine>, u: UserId)
    ensures LinesOf(LinesNotOf(cart, u), u) == []
  {
    if cart != [] {
      ClearEmptiesOwnListing(cart[1..], u);
      var rest := LinesNotOf(cart[1..], u);
      if cart[0].user != u {
        assert LinesNotOf(cart, u) == [cart[0]] + rest;
        LinesOfCons(cart[0], rest, u);
      } else {
        assert LinesNotOf(cart, u) == rest;
      }
    }
  }

  /** Clearing `u`'s lines leaves every other user's listing, order included, as it was. */
  lemma {:induction false} ClearKeepsOtherListings(cart: seq<CartLine>, u: UserId, v: UserId)
    requires u != v
    ensures LinesOf(LinesNotOf(cart, u), v) == LinesOf(cart, v)
  {
    if cart != [] {
      ClearKeepsOtherListings(cart[1..], u, v);
      var rest := LinesNotOf(cart[1..], u);
      if cart[0].user != u {
        assert LinesNotOf(cart, u) == [cart[0]] + rest;
        LinesOfCons(cart[0], rest, v);
        assert LinesOf(LinesNotOf(cart, u), v) == (if cart[0].user == v then [cart[0]] else []) + LinesOf(rest, v);
        assert LinesOf(cart, v) == (if cart[0].user == v then [cart[0]] else []) + LinesOf(cart[1..], v);
      } else {
        assert LinesNotOf(cart, u) == rest;
        assert LinesOf(cart, v) == LinesOf(cart[1..], v);
      }
    }
  }

  /** Clearing twice is clearing once. */
  lemma {:induction false} ClearIsIdempotent(cart: seq<CartLine>, u: UserId)
    ensures LinesNotOf(LinesNotOf(cart, u), u) == LinesNotOf(cart, u)
  {
    if cart != [] {
      ClearIsIdempotent(cart[1..], u);
      var rest := LinesNotOf(cart[1..], u);
      if cart[0].user != u {
        assert LinesNotOf(cart, u) == [cart[0]] + rest;
        assert ([cart[0]] + rest)[0] == cart[0];
        assert ([cart[0]] + rest)[1..] == rest;
        assert LinesNotOf([cart[0]] + rest, u) == [cart[0]] + LinesNotOf(rest, u);
      } else {
        assert LinesNotOf(cart, u) == rest;
      }
    }
  }

  /** Clearing a cart in which `u` has no line changes nothing. */
  lemma {:induction false} ClearWithoutLinesIsNoOp(cart: seq<CartLine>, u: UserId)
    requires LinesOf(cart, u) == []
    ensures LinesNotOf(cart, u) == cart
  {
    if cart != [] {
      assert cart[0].user != u by {
        assert cart[0] in cart;
      }
      ClearWithoutLinesIsNoOp(cart[1..], u);
      assert cart == [cart[0]] + cart[1..];
    }
  }
}
