/**
 * The grant explorer's cart store: the working cart of projects a user has
 * picked for the active round, the add and remove operations of `useCart`,
 * and the provider that loads a round's cart from local storage when the
 * round becomes active and writes the cart back whenever it changes.
 */
module Cart {
  import opened Options

  // ---------------------------------------------------------------------------
  // Projects and carts
  // ---------------------------------------------------------------------------

  type RoundId = string

  /**
   * A project application as the cart holds it. The cart operations only ever
   * look at `projectRegistryId`; the other fields are carried along.
   */
  datatype Project = Project(
    projectRegistryId: string,
    grantApplicationId: string,
    recipient: string,
    applicationIndex: int)

  /** The registry ids of the projects in `cart`. */
  function Keys(cart: seq<Project>): set<string> {
    set p | p in cart :: p.projectRegistryId
  }

  /** No two projects of `cart` share a registry id. */
  predicate UniqueKeys(cart: seq<Project>) {
    forall i, j :: 0 <= i < j < |cart| ==> cart[i].projectRegistryId != cart[j].projectRegistryId
  }

  /** `a` is `b` with some elements dropped, the rest in their order. */
  predicate IsSubsequence(a: seq<Project>, b: seq<Project>)
    decreases |b|
  {
    if a == [] then true
    else if b == [] then false
    else if a[0] == b[0] then IsSubsequence(a[1..], b[1..])
    else IsSubsequence(a, b[1..])
  }

  /** `cart.find(p => p.projectRegistryId === key)`: the first project with that key, if any. */
  function Find(cart: seq<Project>, key: string): (r: Option<Project>)
    ensures r.Some? <==> key in Keys(cart)
    ensures r.Some? ==> r.value in cart && r.value.projectRegistryId == key
  {
    if cart == [] then None
    else if cart[0].projectRegistryId == key then Some(cart[0])
    else
      assert Keys(cart) == {cart[0].projectRegistryId} + Keys(cart[1..]) by {
        assert cart == [cart[0]] + cart[1..];
        KeysAppend([cart[0]], cart[1..]);
      }
      Find(cart[1..], key)
  }

  /** What `Find` returns is the first project carrying the key. */
  lemma {:induction false} FindIsFirst(cart: seq<Project>, key: string, i: nat)
    requires i < |cart| && cart[i].projectRegistryId == key
    requires forall j :: 0 <= j < i ==> cart[j].projectRegistryId != key
    ensures Find(cart, key) == Some(cart[i])
    decreases i
  {
    if i > 0 {
      assert cart[0].projectRegistryId != key;
      FindIsFirst(cart[1..], key, i - 1);
    }
  }

  lemma KeysAppend(a: seq<Project>, b: seq<Project>)
    ensures Keys(a + b) == Keys(a) + Keys(b)
  {
    assert forall p :: p in a + b <==> p in a || p in b;
  }

  lemma NoKeysIsEmpty(cart: seq<Project>)
    ensures Keys(cart) == {} <==> cart == []
  {
    if cart != [] {
      assert cart[0].projectRegistryId in Keys(cart);
    }
  }

  // ---------------------------------------------------------------------------
  // Adding projects
  // ---------------------------------------------------------------------------

  /** One step of the reduce: `acc` when it already holds the project's key, else `acc` with it appended. */
  function AddOne(acc: seq<Project>, project: Project): seq<Project> {
    if Find(acc, project.projectRegistryId).Some? then acc else acc + [project]
  }

  /** `handleAddProjectsToCart`: `projectsToAdd.reduce(AddOne, cart)`. */
  function AddProjects(cart: seq<Project>, projectsToAdd: seq<Project>): seq<Project>
    decreases |projectsToAdd|
  {
    if projectsToAdd == [] then cart
    else AddProjects(AddOne(cart, projectsToAdd[0]), projectsToAdd[1..])
  }

  /**
   * The reference for adding: the projects of `ps` whose key is neither in
   * `seen` nor on an earlier project of `ps`, in their order.
   */
  function FirstSeen(seen: set<string>, ps: seq<Project>): seq<Project>
    decreases |ps|
  {
    if ps == [] then []
    else if ps[0].projectRegistryId in seen then FirstSeen(seen, ps[1..])
    else [ps[0]] + FirstSeen(seen + {ps[0].projectRegistryId}, ps[1..])
  }

  /** Adding keeps the cart as it was and appends the first-seen projects whose key it lacks. */
  lemma {:induction false} AddAppendsFirstSeen(cart: seq<Project>, ps: seq<Project>)
    ensures AddProjects(cart, ps) == cart + FirstSeen(Keys(cart), ps)
    decreases |ps|
  {
    if ps != [] {
      var p := ps[0];
      if p.projectRegistryId in Keys(cart) {
        assert AddOne(cart, p) == cart;
        AddAppendsFirstSeen(cart, ps[1..]);
      } else {
        assert AddOne(cart, p) == cart + [p];
        AddAppendsFirstSeen(cart + [p], ps[1..]);
        KeysAppend(cart, [p]);
        assert Keys([p]) == {p.projectRegistryId};
        var rest := FirstSeen(Keys(cart) + {p.projectRegistryId}, ps[1..]);
        assert FirstSeen(Keys(cart), ps) == [p] + rest;
        assert cart + [p] + rest == cart + ([p] + rest);
      }
    }
  }

  /** The first-seen projects carry exactly the keys of `ps` that are not in `seen`. */
  lemma {:induction false} FirstSeenKeys(seen: set<string>, ps: seq<Project>)
    ensures Keys(FirstSeen(seen, ps)) == Keys(ps) - seen
    decreases |ps|
  {
    if ps != [] {
      var p := ps[0];
      assert ps == [p] + ps[1..];
      KeysAppend([p], ps[1..]);
      assert Keys([p]) == {p.projectRegistryId};
      if p.projectRegistryId in seen {
        FirstSeenKeys(seen, ps[1..]);
      } else {
        var rest := FirstSeen(seen + {p.projectRegistryId}, ps[1..]);
        FirstSeenKeys(seen + {p.projectRegistryId}, ps[1..]);
        KeysAppend([p], rest);
      }
    }
  }

  /** No key occurs twice among the first-seen projects. */
  lemma {:induction false} FirstSeenUnique(seen: set<string>, ps: seq<Project>)
    ensures UniqueKeys(FirstSeen(seen, ps))
    decreases |ps|
  {
    if ps != [] {
      var p := ps[0];
      if p.projectRegistryId in seen {
        FirstSeenUnique(seen, ps[1..]);
      } else {
        var rest := FirstSeen(seen + {p.projectRegistryId}, ps[1..]);
        FirstSeenUnique(seen + {p.projectRegistryId}, ps[1..]);
        FirstSeenKeys(seen + {p.projectRegistryId}, ps[1..]);
        var r := [p] + rest;
        forall i, j | 0 <= i < j < |r|
          ensures r[i].projectRegistryId != r[j].projectRegistryId
        {
          if i == 0 {
            assert r[j] == rest[j - 1];
            assert r[j].projectRegistryId in Keys(rest);
          } else {
            assert r[i] == rest[i - 1] && r[j] == rest[j - 1];
          }
        }
      }
    }
  }

  lemma {:induction false} FirstSeenFind(seen: set<string>, ps: seq<Project>, key: string)
    requires key !in seen
    ensures Find(FirstSeen(seen, ps), key) == Find(ps, key)
    decreases |ps|
  {
    if ps != [] {
      var p := ps[0];
      if p.projectRegistryId in seen {
        FirstSeenFind(seen, ps[1..], key);
      } else {
        var rest := FirstSeen(seen + {p.projectRegistryId}, ps[1..]);
        assert ([p] + rest)[1..] == rest;
        if p.projectRegistryId != key {
          FirstSeenFind(seen + {p.projectRegistryId}, ps[1..], key);
        }
      }
    }
  }

  lemma {:induction false} FirstSeenIsSubsequence(seen: set<string>, ps: seq<Project>)
    ensures IsSubsequence(FirstSeen(seen, ps), ps)
    decreases |ps|
  {
    if ps != [] {
      var p := ps[0];
      if p.projectRegistryId in seen {
        FirstSeenIsSubsequence(seen, ps[1..]);
        SubsequenceOfTail(FirstSeen(seen, ps[1..]), ps);
      } else {
        var rest := FirstSeen(seen + {p.projectRegistryId}, ps[1..]);
        FirstSeenIsSubsequence(seen + {p.projectRegistryId}, ps[1..]);
        assert ([p] + rest)[1..] == rest;
      }
    }
  }

  /** A subsequence of the tail of `b` is a subsequence of `b`. */
  lemma {:induction false} SubsequenceOfTail(a: seq<Project>, b: seq<Project>)
    requires b != [] && IsSubsequence(a, b[1..])
    ensures IsSubsequence(a, b)
    decreases |b|, 0
  {
    if a != [] && a[0] == b[0] {
      DropHead(a, b[1..]);
    }
  }

  /** Without its first element, a subsequence of `c` is still one. */
  lemma {:induction false} DropHead(a: seq<Project>, c: seq<Project>)
    requires a != [] && IsSubsequence(a, c)
    ensures IsSubsequence(a[1..], c)
    decreases |c|, 1
  {
    if a[0] == c[0] {
      SubsequenceOfTail(a[1..], c);
    } else {
      DropHead(a, c[1..]);
      SubsequenceOfTail(a[1..], c);
    }
  }

  /** A first match that lies past a prefix without the key is the match in the rest. */
  lemma {:induction false} FindAppend(a: seq<Project>, b: seq<Project>, key: string)
    ensures key !in Keys(a) ==> Find(a + b, key) == Find(b, key)
    ensures key in Keys(a) ==> Find(a + b, key) == Find(a, key)
    decreases |a|
  {
    if a != [] {
      assert (a + b)[1..] == a[1..] + b;
      assert Keys(a) == {a[0].projectRegistryId} + Keys(a[1..]) by {
        assert a == [a[0]] + a[1..];
        KeysAppend([a[0]], a[1..]);
      }
      FindAppend(a[1..], b, key);
    } else {
      assert a + b == b;
    }
  }

  /**
   * After adding, the cart is the old cart followed by new entries, in the
   * order of `ps`, and no entry of the old cart is changed or moved.
   */
  lemma AddKeepsCart(cart: seq<Project>, ps: seq<Project>)
    ensures var added := AddProjects(cart, ps);
      |cart| <= |added| && added[..|cart|] == cart && IsSubsequence(added[|cart|..], ps)
  {
    AddAppendsFirstSeen(cart, ps);
    FirstSeenIsSubsequence(Keys(cart), ps);
    var added := AddProjects(cart, ps);
    assert added[|cart|..] == FirstSeen(Keys(cart), ps);
  }

  /** Every key of the input is in the cart after adding, and no other key is added. */
  lemma AddKeys(cart: seq<Project>, ps: seq<Project>)
    ensures Keys(AddProjects(cart, ps)) == Keys(cart) + Keys(ps)
  {
    AddAppendsFirstSeen(cart, ps);
    FirstSeenKeys(Keys(cart), ps);
    KeysAppend(cart, FirstSeen(Keys(cart), ps));
  }

  /**
   * First seen wins: for a key the cart already holds, the cart's entry is
   * kept; for any other key, the entry after adding is the first project of
   * the input with that key. So a later project never evicts an earlier one.
   */
  lemma AddFirstSeenWins(cart: seq<Project>, ps: seq<Project>, key: string)
    ensures key in Keys(cart) ==> Find(AddProjects(cart, ps), key) == Find(cart, key)
    ensures key !in Keys(cart) ==> Find(AddProjects(cart, ps), key) == Find(ps, key)
  {
    AddAppendsFirstSeen(cart, ps);
    FindAppend(cart, FirstSeen(Keys(cart), ps), key);
    if key !in Keys(cart) {
      FirstSeenFind(Keys(cart), ps, key);
    }
  }

  /** A cart whose keys are unique keeps them unique through an add. */
  lemma AddKeepsKeysUnique(cart: seq<Project>, ps: seq<Project>)
    requires UniqueKeys(cart)
    ensures UniqueKeys(AddProjects(cart, ps))
  {
    AddAppendsFirstSeen(cart, ps);
    var newOnes := FirstSeen(Keys(cart), ps);
    FirstSeenKeys(Keys(cart), ps);
    FirstSeenUnique(Keys(cart), ps);
    var added := cart + newOnes;
    forall i, j | 0 <= i < j < |added|
      ensures added[i].projectRegistryId != added[j].projectRegistryId
    {
      if j >= |cart| {
        assert added[j] == newOnes[j - |cart|];
        if i < |cart| {
          assert added[i].projectRegistryId in Keys(cart);
          assert added[j].projectRegistryId in Keys(newOnes);
        } else {
          assert added[i] == newOnes[i - |cart|];
        }
      }
    }
  }

  /** Adding the same projects a second time changes nothing. */
  lemma AddIdempotent(cart: seq<Project>, ps: seq<Project>)
    ensures AddProjects(AddProjects(cart, ps), ps) == AddProjects(cart, ps)
  {
    var once := AddProjects(cart, ps);
    AddKeys(cart, ps);
    AddAppendsFirstSeen(once, ps);
    FirstSeenKeys(Keys(once), ps);
    NothingUnseen(Keys(once), ps);
  }

  lemma {:induction false} NothingUnseen(seen: set<string>, ps: seq<Project>)
    requires Keys(ps) <= seen
    ensures FirstSeen(seen, ps) == []
    decreases |ps|
  {
    if ps != [] {
      assert ps[0] in ps;
      assert Keys(ps[1..]) <= Keys(ps) by {
        assert forall p | p in ps[1..] :: p in ps;
      }
      NothingUnseen(seen, ps[1..]);
    }
  }

  // ---------------------------------------------------------------------------
  // Removing projects
  // ---------------------------------------------------------------------------

  /** `handleRemoveProjectsFromCart`: the projects of `cart` whose key matches no project to remove. */
  function RemoveProjects(cart: seq<Project>, projectsToRemove: seq<Project>): seq<Project>
    decreases |cart|
  {
    if cart == [] then []
    else
      var rest := RemoveProjects(cart[1..], projectsToRemove);
      if Find(projectsToRemove, cart[0].projectRegistryId).Some? then rest else [cart[0]] + rest
  }

  /** A project is left after removing exactly when it was in the cart and its key is not removed. */
  lemma {:induction false} RemoveMembers(cart: seq<Project>, rs: seq<Project>, p: Project)
    ensures p in RemoveProjects(cart, rs) <==> p in cart && p.projectRegistryId !in Keys(rs)
    decreases |cart|
  {
    if cart != [] {
      RemoveMembers(cart[1..], rs, p);
      assert cart == [cart[0]] + cart[1..];
    }
  }

  /** What is left is the cart with entries dropped, the others in their order. */
  lemma {:induction false} RemoveIsSubsequence(cart: seq<Project>, rs: seq<Project>)
    ensures IsSubsequence(RemoveProjects(cart, rs), cart)
    decreases |cart|
  {
    if cart != [] {
      var rest := RemoveProjects(cart[1..], rs);
      RemoveIsSubsequence(cart[1..], rs);
      if Find(rs, cart[0].projectRegistryId).Some? {
        SubsequenceOfTail(rest, cart);
      } else {
        assert ([cart[0]] + rest)[1..] == rest;
      }
    }
  }

  /**
   * `filter` keeps every occurrence of a kept project: each project is left
   * as many times as it was in the cart, or not at all when its key is removed.
   */
  lemma {:induction false} RemoveCounts(cart: seq<Project>, rs: seq<Project>, p: Project)
    ensures multiset(RemoveProjects(cart, rs))[p] ==
      if p.projectRegistryId in Keys(rs) then 0 else multiset(cart)[p]
    decreases |cart|
  {
    if cart != [] {
      RemoveCounts(cart[1..], rs, p);
      assert cart == [cart[0]] + cart[1..];
    }
  }

  /** The keys left are the cart's keys less the removed ones: no removed key remains. */
  lemma RemoveKeys(cart: seq<Project>, rs: seq<Project>)
    ensures Keys(RemoveProjects(cart, rs)) == Keys(cart) - Keys(rs)
  {
    forall p {
      RemoveMembers(cart, rs, p);
    }
  }

  /** Removing projects none of which is in the cart leaves the cart as it was. */
  lemma {:induction false} RemoveNonMembers(cart: seq<Project>, rs: seq<Project>)
    requires Keys(cart) !! Keys(rs)
    ensures RemoveProjects(cart, rs) == cart
    decreases |cart|
  {
    if cart != [] {
      assert cart[0] in cart;
      assert Keys(cart[1..]) <= Keys(cart) by {
        assert forall p | p in cart[1..] :: p in cart;
      }
      RemoveNonMembers(cart[1..], rs);
      assert cart == [cart[0]] + cart[1..];
    }
  }

  /** Removing the same projects a second time changes nothing. */
  lemma RemoveIdempotent(cart: seq<Project>, rs: seq<Project>)
    ensures RemoveProjects(RemoveProjects(cart, rs), rs) == RemoveProjects(cart, rs)
  {
    RemoveKeys(cart, rs);
    RemoveNonMembers(RemoveProjects(cart, rs), rs);
  }

  lemma {:induction false} RemoveAppend(a: seq<Project>, b: seq<Project>, rs: seq<Project>)
    ensures RemoveProjects(a + b, rs) == RemoveProjects(a, rs) + RemoveProjects(b, rs)
    decreases |a|
  {
    if a != [] {
      assert (a + b)[1..] == a[1..] + b;
      RemoveAppend(a[1..], b, rs);
    } else {
      assert a + b == b;
    }
  }

  /** Removing what was just added gives what removing alone gives: the add is undone. */
  lemma RemoveUndoesAdd(cart: seq<Project>, ps: seq<Project>)
    ensures RemoveProjects(AddProjects(cart, ps), ps) == RemoveProjects(cart, ps)
  {
    var newOnes := FirstSeen(Keys(cart), ps);
    AddAppendsFirstSeen(cart, ps);
    RemoveAppend(cart, newOnes, ps);
    FirstSeenKeys(Keys(cart), ps);
    RemoveKeys(newOnes, ps);
    NoKeysIsEmpty(RemoveProjects(newOnes, ps));
    assert RemoveProjects(cart, ps) + [] == RemoveProjects(cart, ps);
  }

  /** A cart whose keys are unique keeps them unique through a remove. */
  lemma {:induction false} RemoveKeepsKeysUnique(cart: seq<Project>, rs: seq<Project>)
    requires UniqueKeys(cart)
    ensures UniqueKeys(RemoveProjects(cart, rs))
    decreases |cart|
  {
    if cart != [] {
      var rest := RemoveProjects(cart[1..], rs);
      RemoveKeepsKeysUnique(cart[1..], rs);
      if Find(rs, cart[0].projectRegistryId).None? {
        var r := [cart[0]] + rest;
        forall i, j | 0 <= i < j < |r|
          ensures r[i].projectRegistryId != r[j].projectRegistryId
        {
          if i == 0 {
            assert r[j] == rest[j - 1];
            RemoveMembers(cart[1..], rs, r[j]);
            var k :| 0 <= k < |cart[1..]| && cart[1..][k] == r[j];
            assert cart[k + 1] == r[j];
          } else {
            assert r[i] == rest[i - 1] && r[j] == rest[j - 1];
          }
        }
      }
    }
  }

  // ---------------------------------------------------------------------------
  // The provider: load on activation, save on change
  // ---------------------------------------------------------------------------

  /** What the provider holds: the working cart, the active round, and the stored cart of each round. */
  datatype ProviderState = ProviderState(
    cart: seq<Project>,
    currentRoundId: Option<RoundId>,
    storage: map<RoundId, seq<Project>>)

  /** `if (currentRoundId)`: a round id that is present and not the empty string. */
  predicate Truthy(id: Option<RoundId>) {
    id.Some? && id.value != ""
  }

  /** `loadCartFromLocalStorage(id) ?? []` */
  function LoadCart(storage: map<RoundId, seq<Project>>, id: RoundId): seq<Project> {
    if id in storage then storage[id] else []
  }

  /** The stored cart of every round other than `id` is the same in `before` and `after`. */
  ghost predicate OthersUnchanged(before: map<RoundId, seq<Project>>, after: map<RoundId, seq<Project>>, id: RoundId) {
    forall r :: r != id ==> (r in before <==> r in after) && (r in before ==> before[r] == after[r])
  }

  /** The working cart is the one stored for the active round, when that round is truthy. */
  predicate Synced(s: ProviderState) {
    Truthy(s.currentRoundId) ==>
      s.currentRoundId.value in s.storage && s.storage[s.currentRoundId.value] == s.cart
  }

  /** The two effects for a truthy round `id`: load its cart, then save the cart under it. */
  function Activate(s: ProviderState, id: RoundId): ProviderState {
    var loaded := LoadCart(s.storage, id);
    ProviderState(loaded, Some(id), s.storage[id := loaded])
  }

  /** Mounting: the initial empty cart, then the effects for the round at hand. */
  function Mount(storage: map<RoundId, seq<Project>>, roundId: Option<RoundId>): ProviderState {
    var initial := ProviderState([], roundId, storage);
    if Truthy(roundId) then Activate(initial, roundId.value) else initial
  }

  /**
   * A new `currentRoundId`: the effects run only when it differs from the old
   * one, and do something only when it is truthy.
   */
  function SwitchRound(s: ProviderState, id: Option<RoundId>): ProviderState {
    if id == s.currentRoundId then s
    else if Truthy(id) then Activate(s, id.value)
    else s.(currentRoundId := id)
  }

  /** `setCart(c)`: the new cart, saved under the active round when that round is truthy. */
  function CartChanged(s: ProviderState, c: seq<Project>): ProviderState {
    if Truthy(s.currentRoundId) then s.(cart := c, storage := s.storage[s.currentRoundId.value := c])
    else s.(cart := c)
  }

  /** A run of cart changes, one after the other. */
  function Edits(s: ProviderState, carts: seq<seq<Project>>): ProviderState
    decreases |carts|
  {
    if carts == [] then s else Edits(CartChanged(s, carts[0]), carts[1..])
  }

  /** Mounting on a truthy round gives that round's stored cart, or `[]`; the state is synced either way. */
  lemma MountLoads(storage: map<RoundId, seq<Project>>, roundId: Option<RoundId>)
    ensures var s := Mount(storage, roundId);
      && Synced(s)
      && s.currentRoundId == roundId
      && (Truthy(roundId) ==> s.cart == LoadCart(storage, roundId.value) && OthersUnchanged(storage, s.storage, roundId.value))
      && (!Truthy(roundId) ==> s.cart == [] && s.storage == storage)
  {
  }

  /**
   * Switching to a different truthy round makes the cart that round's stored
   * cart, or `[]` when none is stored, whatever the cart was before; the
   * stored carts of the other rounds are untouched.
   */
  lemma SwitchRoundLoads(s: ProviderState, id: Option<RoundId>)
    requires Truthy(id) && id != s.currentRoundId
    ensures var t := SwitchRound(s, id);
      && t.currentRoundId == id
      && t.cart == LoadCart(s.storage, id.value)
      && id.value in t.storage && t.storage[id.value] == t.cart
      && OthersUnchanged(s.storage, t.storage, id.value)
  {
  }

  /** Switching to a falsy round id loads nothing and saves nothing. */
  lemma SwitchRoundFalsy(s: ProviderState, id: Option<RoundId>)
    requires !Truthy(id)
    ensures var t := SwitchRound(s, id);
      t.currentRoundId == id && t.cart == s.cart && t.storage == s.storage
  {
  }

  /**
   * A cart change under a truthy round stores the new cart under that round
   * and touches no other; under a falsy round nothing is stored.
   */
  lemma CartChangedSaves(s: ProviderState, c: seq<Project>)
    ensures var t := CartChanged(s, c);
      && t.cart == c
      && t.currentRoundId == s.currentRoundId
      && (Truthy(s.currentRoundId) ==>
            && s.currentRoundId.value in t.storage && t.storage[s.currentRoundId.value] == c
            && OthersUnchanged(s.storage, t.storage, s.currentRoundId.value))
      && (!Truthy(s.currentRoundId) ==> t.storage == s.storage)
  {
  }

  /** Every transition keeps the working cart and the active round's stored cart the same. */
  lemma TransitionsKeepSynced(s: ProviderState, id: Option<RoundId>, c: seq<Project>)
    requires Synced(s)
    ensures Synced(SwitchRound(s, id))
    ensures Synced(CartChanged(s, c))
  {
  }

  /** Cart changes under one truthy round leave the round and every other round's stored cart alone. */
  lemma {:induction false} EditsStayInRound(s: ProviderState, carts: seq<seq<Project>>)
    requires Truthy(s.currentRoundId)
    ensures Edits(s, carts).currentRoundId == s.currentRoundId
    ensures OthersUnchanged(s.storage, Edits(s, carts).storage, s.currentRoundId.value)
    decreases |carts|
  {
    if carts != [] {
      EditsStayInRound(CartChanged(s, carts[0]), carts[1..]);
    }
  }

  /**
   * Switching from round R1 to round R2, changing the cart any number of
   * times there, and switching back gives R1's cart as it was last saved.
   */
  lemma {:induction false} SwitchBackRestores(s: ProviderState, other: Option<RoundId>, carts: seq<seq<Project>>)
    requires Synced(s) && Truthy(s.currentRoundId)
    requires Truthy(other) && other != s.currentRoundId
    ensures SwitchRound(Edits(SwitchRound(s, other), carts), s.currentRoundId).cart == s.cart
  {
    var away := SwitchRound(s, other);
    EditsStayInRound(away, carts);
    var edited := Edits(away, carts);
    assert s.currentRoundId.value != other.value;
    assert s.currentRoundId.value in edited.storage && edited.storage[s.currentRoundId.value] == s.cart;
  }

  // ---------------------------------------------------------------------------
  // The provider as an object
  // ---------------------------------------------------------------------------

  /**
   * `CartProvider` with its `useState` cart, the round id it reads from the
   * round context, and the local storage it loads from and saves to. Each
   * method runs the state update and then, synchronously, the effects it
   * triggers.
   */
  class CartProvider {
    var cart: seq<Project>
    var currentRoundId: Option<RoundId>
    var storage: map<RoundId, seq<Project>>

    function State(): ProviderState
      reads this
    {
      ProviderState(cart, currentRoundId, storage)
    }

    ghost predicate Valid()
      reads this
    {
      Synced(State())
    }

    /** Mounting on `roundId` with `initialStorage` in local storage. */
    constructor(initialStorage: map<RoundId, seq<Project>>, roundId: Option<RoundId>)
      ensures State() == Mount(initialStorage, roundId)
      ensures Valid()
    {
      var c: seq<Project> := [];
      var stored := initialStorage;
      if Truthy(roundId) {
        c := LoadCart(stored, roundId.value);
        stored := stored[roundId.value := c];
      }
      cart := c;
      currentRoundId := roundId;
      storage := stored;
    }

    /** The round context publishes a new `currentRoundId`. */
    method SetCurrentRoundId(id: Option<RoundId>)
      requires Valid()
      modifies this
      ensures State() == SwitchRound(old(State()), id)
      ensures Valid()
    {
      if id != currentRoundId {
        currentRoundId := id;
        if Truthy(id) {
          cart := LoadCart(storage, id.value);
          storage := storage[id.value := cart];
        }
      }
    }

    /** `setCart(c)` followed by the save effect. */
    method SetCart(c: seq<Project>)
      requires Valid()
      modifies this
      ensures State() == CartChanged(old(State()), c)
      ensures Valid()
    {
      cart := c;
      if Truthy(currentRoundId) {
        storage := storage[currentRoundId.value := cart];
      }
    }

    /** `handleAddProjectsToCart(projectsToAdd)`. */
    method AddProjectsToCart(projectsToAdd: seq<Project>)
      requires Valid()
      modifies this
      ensures State() == CartChanged(old(State()), AddProjects(old(cart), projectsToAdd))
      ensures Valid()
    {
      SetCart(AddProjects(cart, projectsToAdd));
    }

    /** `handleRemoveProjectsFromCart(projectsToRemove)`. */
    method RemoveProjectsFromCart(projectsToRemove: seq<Project>)
      requires Valid()
      modifies this
      ensures State() == CartChanged(old(State()), RemoveProjects(old(cart), projectsToRemove))
      ensures Valid()
    {
      SetCart(RemoveProjects(cart, projectsToRemove));
    }
  }
}
