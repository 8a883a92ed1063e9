/** The Merkle tree of prize claims: sorted pairs, an odd node carried up
    unchanged, and a proof per claim.  Words and digests are numbers, so that a pair
    has an order; leaves and inner nodes use one hash function of two words, which
    is a parameter. */
module PrizeTree {
  import opened Text

  datatype Claim = Claim(account: Address, amount: int)

  datatype Proven = Proven(account: Address, amount: int, proof: seq<nat>)

  datatype PrizeTree = PrizeTree(root: nat, claims: seq<Proven>)

  predicate IsHexDigit(c: char) {
    '0' <= c <= '9' || 'a' <= c <= 'f'
  }

  function HexDigit(c: char): nat {
    if '0' <= c <= '9' then c as nat - '0' as nat
    else if 'a' <= c <= 'f' then c as nat - 'a' as nat + 10
    else 0
  }

  function HexValue(s: string): nat {
    if s == [] then 0 else 16 * HexValue(s[..|s| - 1]) + HexDigit(s[|s| - 1])
  }

  /** The word an address is encoded as: its digits as a number, in either letter case. */
  function AddressWord(a: Address): nat {
    if |a| < 2 then 0 else HexValue(Lower(a)[2..])
  }

  datatype Hasher = Hasher(hash: (int, int) -> nat) {
    function Leaf(account: Address, amount: int): nat {
      hash(AddressWord(account), amount)
    }

    function Pair(a: nat, b: nat): nat {
      if a <= b then hash(a, b) else hash(b, a)
    }
  }

  function Leaf(h: Hasher, c: Claim): nat {
    h.Leaf(c.account, c.amount)
  }

  function Positive(claims: seq<Claim>): seq<Claim> {
    if claims == [] then []
    else
      var last := claims[|claims| - 1];
      Positive(claims[..|claims| - 1]) + (if last.amount > 0 then [last] else [])
  }

  function Leaves(h: Hasher, claims: seq<Claim>): seq<nat> {
    seq(|claims|, i requires 0 <= i < |claims| => Leaf(h, claims[i]))
  }

  // ----- layers, root and proofs -----

  /** Neighbours are paired; the last node of an odd layer moves up as it is. */
  function NextLayer(h: Hasher, layer: seq<nat>): seq<nat> {
    seq((|layer| + 1) / 2, i requires 0 <= i < (|layer| + 1) / 2 =>
      if 2 * i + 1 < |layer| then h.Pair(layer[2 * i], layer[2 * i + 1]) else layer[2 * i])
  }

  function Root(h: Hasher, layer: seq<nat>): nat
    requires layer != []
    decreases |layer|
  {
    if |layer| == 1 then layer[0] else Root(h, NextLayer(h, layer))
  }

  /** The sibling of node `i`, when it has one. */
  function Sibling(layer: seq<nat>, i: nat): seq<nat> {
    var sib := if i % 2 == 0 then i + 1 else i - 1;
    if sib < |layer| then [layer[sib]] else []
  }

  function ProofOf(h: Hasher, layer: seq<nat>, i: nat): seq<nat>
    requires i < |layer|
    decreases |layer|
  {
    if |layer| == 1 then [] else Sibling(layer, i) + ProofOf(h, NextLayer(h, layer), i / 2)
  }

  function TreeOf(h: Hasher, claims: seq<Claim>): PrizeTree {
    var kept := Positive(claims);
    var leaves := Leaves(h, kept);
    if kept == [] then PrizeTree(0, [])
    else
      PrizeTree(Root(h, leaves), seq(|kept|, i requires 0 <= i < |kept| =>
        Proven(kept[i].account, kept[i].amount, ProofOf(h, leaves, i))))
  }

  function Climb(h: Hasher, from: nat, proof: seq<nat>): nat {
    if proof == [] then from
    else h.Pair(Climb(h, from, proof[..|proof| - 1]), proof[|proof| - 1])
  }

  predicate Verifies(h: Hasher, root: nat, account: Address, amount: int, proof: seq<nat>) {
    Climb(h, h.Leaf(account, amount), proof) == root
  }

  /** Leaves hash the account and the amount; a pair is hashed the smaller first. */
  lemma HashesInNumbers(h: Hasher, c: Claim, a: nat, b: nat)
    ensures Leaf(h, c) == h.hash(AddressWord(c.account), c.amount)
    ensures h.Pair(a, b) == h.hash(if a <= b then a else b, if a <= b then b else a)
  {
  }

  /** Without a positive claim the tree is empty and its root is 0. */
  lemma {:induction false} RootOfNone(h: Hasher, claims: seq<Claim>)
    requires forall c :: c in claims ==> c.amount <= 0
    ensures TreeOf(h, claims) == PrizeTree(0, [])
  {
    if claims != [] { RootOfNone(h, claims[..|claims| - 1]); }
  }

  /** The root over three positive claims: two paired, the third carried up. */
  lemma RootOfThree(h: Hasher, a: Claim, b: Claim, c: Claim)
    requires a.amount > 0 && b.amount > 0 && c.amount > 0
    ensures TreeOf(h, [a, b, c]).root == h.Pair(h.Pair(Leaf(h, a), Leaf(h, b)), Leaf(h, c))
  {
    var claims := [a, b, c];
    assert claims[..2] == [a, b] && [a, b][..1] == [a] && [a][..0] == [];
    assert Positive([]) == [] && Positive([a]) == [a] && Positive([a, b]) == [a, b];
    assert Positive(claims) == claims;
    var leaves := Leaves(h, claims);
    var next := NextLayer(h, leaves);
    assert next == [h.Pair(Leaf(h, a), Leaf(h, b)), Leaf(h, c)];
    assert NextLayer(h, next) == [h.Pair(next[0], next[1])];
    assert Root(h, leaves) == Root(h, next) == Root(h, NextLayer(h, next));
  }

  // ----- every proof verifies, whatever the hash -----

  lemma {:induction false} ClimbInStages(h: Hasher, from: nat, first: seq<nat>, rest: seq<nat>)
    ensures Climb(h, from, first + rest) == Climb(h, Climb(h, from, first), rest)
  {
    if rest == [] {
      assert first + rest == first;
    } else {
      assert (first + rest)[..|first + rest| - 1] == first + rest[..|rest| - 1];
      ClimbInStages(h, from, first, rest[..|rest| - 1]);
    }
  }

  lemma SiblingClimbs(h: Hasher, layer: seq<nat>, i: nat)
    requires i < |layer| && |layer| > 1
    ensures Climb(h, layer[i], Sibling(layer, i)) == NextLayer(h, layer)[i / 2]
  {
    if Sibling(layer, i) != [] {
      assert Sibling(layer, i)[..0] == [];
    }
  }

  lemma {:induction false} ProofsClimbToTheRoot(h: Hasher, layer: seq<nat>, i: nat)
    requires i < |layer|
    ensures Climb(h, layer[i], ProofOf(h, layer, i)) == Root(h, layer)
    decreases |layer|
  {
    if |layer| > 1 {
      SiblingClimbs(h, layer, i);
      ClimbInStages(h, layer[i], Sibling(layer, i), ProofOf(h, NextLayer(h, layer), i / 2));
      ProofsClimbToTheRoot(h, NextLayer(h, layer), i / 2);
    }
  }

  /** Every claim in a built tree verifies, for any hash and any number of claims. */
  lemma EveryProofVerifies(h: Hasher, claims: seq<Claim>, i: nat)
    requires i < |TreeOf(h, claims).claims|
    ensures var tree := TreeOf(h, claims); var c := tree.claims[i];
      Verifies(h, tree.root, c.account, c.amount, c.proof)
  {
    ProofsClimbToTheRoot(h, Leaves(h, Positive(claims)), i);
  }

  function Pow2(k: nat): nat {
    if k == 0 then 1 else 2 * Pow2(k - 1)
  }

  /** A proof has no more steps than the binary logarithm of the claims, rounded up. */
  lemma {:induction false} ProofsAreShort(h: Hasher, layer: seq<nat>, i: nat, k: nat)
    requires i < |layer| <= Pow2(k)
    ensures |ProofOf(h, layer, i)| <= k
    decreases |layer|
  {
    hide NextLayer, Pow2;
    if |layer| > 1 {
      HalfFits(|layer|, k);
      HalfIndex(h, layer, i);
      ProofsAreShort(h, NextLayer(h, layer), i / 2, k - 1);
    }
  }

  lemma HalfFits(n: nat, k: nat)
    requires 1 < n <= Pow2(k)
    ensures k > 0 && (n + 1) / 2 <= Pow2(k - 1)
  {
  }

  // ----- only claims verify -----

  function Pow16(k: nat): nat {
    if k == 0 then 1 else 16 * Pow16(k - 1)
  }

  /** No address is as large as this, 2 to the power 160. */
  const ADDRESS_LIMIT: nat := Pow16(40)

  /** The text of an address: 0x and forty hexadecimal digits, in any letter case. */
  predicate IsAddress(a: Address) {
    && |a| == 42 && a[..2] == "0x"
    && forall i :: 2 <= i < |a| ==> IsHexDigit(ToLower(a[i]))
  }

  predicate IsHex(s: string) {
    forall i :: 0 <= i < |s| ==> IsHexDigit(s[i])
  }

  lemma HexDigitInjective(c: char, d: char)
    requires IsHexDigit(c) && IsHexDigit(d)
    ensures HexDigit(c) < 16 && (HexDigit(c) == HexDigit(d) ==> c == d)
  {
  }

  lemma LastDigit(a: nat, x: nat, b: nat, y: nat)
    requires x < 16 && y < 16 && 16 * a + x == 16 * b + y
    ensures a == b && x == y
  {
  }

  lemma {:induction false} HexValueInjective(s: string, t: string)
    requires |s| == |t| && IsHex(s) && IsHex(t) && HexValue(s) == HexValue(t)
    ensures s == t
  {
    hide HexDigit, IsHexDigit;
    if s != [] {
      var n := |s| - 1;
      HexDigitInjective(s[n], t[n]);
      HexDigitInjective(t[n], s[n]);
      LastDigit(HexValue(s[..n]), HexDigit(s[n]), HexValue(t[..n]), HexDigit(t[n]));
      HexValueInjective(s[..n], t[..n]);
      assert s == s[..n] + [s[n]] && t == t[..n] + [t[n]];
    }
  }

  lemma {:induction false} HexValueIsBounded(s: string)
    requires IsHex(s)
    ensures HexValue(s) < Pow16(|s|)
  {
    hide HexDigit, IsHexDigit;
    if s != [] {
      var n := |s| - 1;
      HexDigitInjective(s[n], s[n]);
      HexValueIsBounded(s[..n]);
    }
  }

  /** Addresses have the same word exactly when they differ in letter case only. */
  lemma SameWordIff(a: Address, b: Address)
    requires IsAddress(a) && IsAddress(b)
    ensures AddressWord(a) == AddressWord(b) <==> Lower(a) == Lower(b)
    ensures AddressWord(a) < ADDRESS_LIMIT
  {
    hide HexValue, Pow16;
    LowerAddress(a);
    LowerAddress(b);
    var x, y := Lower(a), Lower(b);
    HexValueIsBounded(x[2..]);
    assert x == x[..2] + x[2..] && y == y[..2] + y[2..];
    if HexValue(x[2..]) == HexValue(y[2..]) { HexValueInjective(x[2..], y[2..]); }
  }

  lemma LowerAddress(a: Address)
    requires IsAddress(a)
    ensures |Lower(a)| == 42 && Lower(a)[..2] == "0x" && IsHex(Lower(a)[2..])
  {
    assert a[0] == a[..2][0] && a[1] == a[..2][1];
  }

  /** The idealisation of a cryptographic hash: no two pairs of words share a
      digest, and no digest is as small as an address. */
  ghost predicate CollisionFree(h: Hasher) {
    && (forall a, b, c, d :: h.hash(a, b) == h.hash(c, d) ==> a == c && b == d)
    && (forall a, b :: h.hash(a, b) >= ADDRESS_LIMIT)
  }

  // Such hash functions exist: pack the inputs into numbers without loss.

  function Packed(a: nat, b: nat): nat {
    (a + b) * (a + b) + a
  }

  lemma PackedInjective(a: nat, b: nat, c: nat, d: nat)
    requires Packed(a, b) == Packed(c, d)
    ensures a == c && b == d
  {
    PackedOrder(a, b, c, d);
    PackedOrder(c, d, a, b);
  }

  lemma PackedOrder(a: nat, b: nat, c: nat, d: nat)
    ensures a + b < c + d ==> Packed(a, b) < Packed(c, d)
  {
    if a + b < c + d { SquaresApart(a + b, c + d); }
  }

  lemma SquaresApart(s: nat, t: nat)
    requires s < t
    ensures s * s + s < t * t
  {
    var d := t - s;
    assert t * t == s * s + 2 * (s * d) + d * d;
    assert s * d >= s && d * d >= 1;
  }

  function Unsigned(m: int): nat {
    if m >= 0 then 2 * m else -2 * m - 1
  }

  function LosslessHasher(): Hasher {
    Hasher((a: int, b: int) => ADDRESS_LIMIT + Packed(Unsigned(a), Unsigned(b)))
  }

  lemma CollisionFreeHashersExist()
    ensures CollisionFree(LosslessHasher())
  {
    hide Packed, Pow16;
    var h := LosslessHasher();
    forall a, b, c, d | h.hash(a, b) == h.hash(c, d)
      ensures a == c && b == d
    {
      PackedInjective(Unsigned(a), Unsigned(b), Unsigned(c), Unsigned(d));
    }
  }

  datatype Tree = Tip(claim: Claim) | Fork(left: Tree, right: Tree)

  function DigestOf(h: Hasher, t: Tree): nat {
    match t
    case Tip(c) => Leaf(h, c)
    case Fork(l, r) => h.Pair(DigestOf(h, l), DigestOf(h, r))
  }

  function ClaimsIn(t: Tree): set<Claim> {
    match t
    case Tip(c) => {c}
    case Fork(l, r) => ClaimsIn(l) + ClaimsIn(r)
  }

  function Digests(h: Hasher, ts: seq<Tree>): seq<nat> {
    seq(|ts|, i requires 0 <= i < |ts| => DigestOf(h, ts[i]))
  }

  function NextTrees(ts: seq<Tree>): seq<Tree> {
    seq((|ts| + 1) / 2, i requires 0 <= i < (|ts| + 1) / 2 =>
      if 2 * i + 1 < |ts| then Fork(ts[2 * i], ts[2 * i + 1]) else ts[2 * i])
  }

  ghost predicate AllClaims(ts: seq<Tree>, cs: set<Claim>) {
    forall i :: 0 <= i < |ts| ==> ClaimsIn(ts[i]) <= cs
  }

  /** The root is the digest of one tree over all the leaves. */
  lemma {:induction false} RootIsATree(h: Hasher, ts: seq<Tree>, cs: set<Claim>) returns (t: Tree)
    requires ts != [] && AllClaims(ts, cs)
    ensures DigestOf(h, t) == Root(h, Digests(h, ts)) && ClaimsIn(t) <= cs
    decreases |ts|
  {
    if |ts| == 1 {
      t := ts[0];
    } else {
      assert Digests(h, NextTrees(ts)) == NextLayer(h, Digests(h, ts));
      forall i | 0 <= i < |NextTrees(ts)|
        ensures ClaimsIn(NextTrees(ts)[i]) <= cs
      {
        assert ClaimsIn(ts[2 * i]) <= cs;
        assert 2 * i + 1 < |ts| ==> ClaimsIn(ts[2 * i + 1]) <= cs;
      }
      t := RootIsATree(h, NextTrees(ts), cs);
    }
  }

  /** The same account, up to letter case, and the same amount. */
  predicate SameClaim(c: Claim, d: Claim) {
    Lower(c.account) == Lower(d.account) && c.amount == d.amount
  }

  /** From the leaf of `c` some steps climb to the amount of `d`: that amount is a
      digest, and the leaf of `d` reads as an inner node above it. */
  ghost predicate ClimbsToAmount(h: Hasher, c: Claim, d: Claim) {
    exists proof: seq<nat> :: Climb(h, Leaf(h, c), proof) == d.amount
  }

  /** Whatever the proof, what climbs to a node is a leaf's own claim, or climbs to
      the amount of a leaf's claim. */
  lemma {:induction false} OnlyLeavesClimb(h: Hasher, t: Tree, c: Claim, proof: seq<nat>) returns (d: Claim)
    requires CollisionFree(h) && IsAddress(c.account) && Climb(h, Leaf(h, c), proof) == DigestOf(h, t)
    requires forall x :: x in ClaimsIn(t) ==> IsAddress(x.account)
    ensures d in ClaimsIn(t) && (SameClaim(d, c) || ClimbsToAmount(h, c, d))
    decreases proof
  {
    hide AddressWord, IsAddress, Pow16, Lower;
    SameWordIff(c.account, c.account);
    assert t.Tip? ==> t.claim in ClaimsIn(t) && IsAddress(t.claim.account);
    if proof == [] {
      DigestsAreLarge(h, t);
      d := t.claim;
      SameWordIff(d.account, c.account);
    } else {
      var below, x := Climb(h, Leaf(h, c), proof[..|proof| - 1]), proof[|proof| - 1];
      assert h.Pair(below, x) == DigestOf(h, t);
      ClimbIsLarge(h, c, proof[..|proof| - 1]);
      if t.Tip? {
        d := t.claim;
        SameWordIff(d.account, d.account);
        assert below == d.amount;
      } else {
        var l, r := DigestOf(h, t.left), DigestOf(h, t.right);
        assert below == l || below == r;
        d := OnlyLeavesClimb(h, if below == l then t.left else t.right, c, proof[..|proof| - 1]);
      }
    }
  }

  lemma DigestsAreLarge(h: Hasher, t: Tree)
    requires CollisionFree(h)
    ensures DigestOf(h, t) >= ADDRESS_LIMIT
    ensures t.Fork? ==> DigestOf(h, t.left) >= ADDRESS_LIMIT && DigestOf(h, t.right) >= ADDRESS_LIMIT
  {
    hide Pow16;
  }

  lemma ClimbIsLarge(h: Hasher, c: Claim, proof: seq<nat>)
    requires CollisionFree(h)
    ensures Climb(h, Leaf(h, c), proof) >= ADDRESS_LIMIT
  {
    hide Pow16;
  }

  lemma {:induction false} PositiveMembers(claims: seq<Claim>, c: Claim)
    ensures c in Positive(claims) <==> c in claims && c.amount > 0
  {
    if claims != [] {
      assert claims == claims[..|claims| - 1] + [claims[|claims| - 1]];
      PositiveMembers(claims[..|claims| - 1], c);
    }
  }

  lemma LimitIsPositive()
    ensures ADDRESS_LIMIT > 0
  {
    Pow16IsPositive(40);
  }

  lemma {:induction false} Pow16IsPositive(k: nat)
    ensures Pow16(k) > 0
  {
    if k > 0 { Pow16IsPositive(k - 1); }
  }

  lemma SameClaimSameLeaf(h: Hasher, c: Claim, d: Claim)
    requires SameClaim(c, d)
    ensures Leaf(h, c) == Leaf(h, d)
  {
    assert |c.account| == |Lower(c.account)| && |d.account| == |Lower(d.account)|;
  }

  /** Every claim is to an address, as the encoding demands. */
  ghost predicate AllAddressed(claims: seq<Claim>) {
    forall x :: x in claims ==> IsAddress(x.account)
  }

  /** Whoever holds some proof against the built root is named in a positive claim,
      or climbs to the amount of one. */
  lemma ProvenIsAClaim(h: Hasher, claims: seq<Claim>, c: Claim, proof: seq<nat>) returns (d: Claim)
    requires CollisionFree(h) && IsAddress(c.account) && AllAddressed(claims)
    requires Verifies(h, TreeOf(h, claims).root, c.account, c.amount, proof)
    ensures d in claims && d.amount > 0 && (SameClaim(d, c) || ClimbsToAmount(h, c, d))
  {
    hide IsAddress, SameClaim, Pow16, ClimbsToAmount;
    var kept := Positive(claims);
    forall x
      ensures x in kept <==> x in claims && x.amount > 0
    {
      PositiveMembers(claims, x);
    }
    ClimbIsLarge(h, c, proof);
    LimitIsPositive();
    var tips := seq(|kept|, i requires 0 <= i < |kept| => Tip(kept[i]));
    assert Digests(h, tips) == Leaves(h, kept);
    var t := RootIsATree(h, tips, set x | x in kept);
    d := OnlyLeavesClimb(h, t, c, proof);
  }

  /** A positive claim names this account, in either letter case, and amount. */
  ghost predicate IsClaimed(claims: seq<Claim>, c: Claim) {
    exists d :: d in claims && d.amount > 0 && SameClaim(d, c)
  }

  /** The leaf of `c` climbs to the amount of some positive claim. */
  ghost predicate ReachesAnAmount(h: Hasher, claims: seq<Claim>, c: Claim) {
    exists d :: d in claims && d.amount > 0 && ClimbsToAmount(h, c, d)
  }

  /** A proof against the built root exists for exactly the positive claims, whose
      accounts may be written in either letter case, and for what climbs to the
      amount of one.  Amounts below 2 to the power 160 are no digests, so then
      exactly the claims verify. */
  lemma ExactlyTheClaimsVerify(h: Hasher, claims: seq<Claim>, c: Claim)
    requires CollisionFree(h) && IsAddress(c.account) && AllAddressed(claims)
    ensures (exists proof: seq<nat> :: Verifies(h, TreeOf(h, claims).root, c.account, c.amount, proof))
      <==> IsClaimed(claims, c) || ReachesAnAmount(h, claims, c)
    ensures (forall d :: d in claims ==> d.amount < ADDRESS_LIMIT) ==> !ReachesAnAmount(h, claims, c)
  {
    hide IsAddress, SameClaim, TreeOf, ClimbsToAmount, Pow16;
    if d :| d in claims && d.amount > 0 && SameClaim(d, c) {
      ClaimHasAProof(h, claims, c, d);
    }
    if d :| d in claims && d.amount > 0 && ClimbsToAmount(h, c, d) {
      AmountHasAProof(h, claims, c, d);
    }
    if proof: seq<nat> :| Verifies(h, TreeOf(h, claims).root, c.account, c.amount, proof) {
      var d := ProvenIsAClaim(h, claims, c, proof);
    }
    forall d | d in claims && ClimbsToAmount(h, c, d)
      ensures d.amount >= ADDRESS_LIMIT
    {
      AmountsReachedAreLarge(h, c, d);
    }
  }

  lemma AmountsReachedAreLarge(h: Hasher, c: Claim, d: Claim)
    requires CollisionFree(h) && ClimbsToAmount(h, c, d)
    ensures d.amount >= ADDRESS_LIMIT
  {
    hide CollisionFree, Pow16;
    var proof: seq<nat> :| Climb(h, Leaf(h, c), proof) == d.amount;
    ClimbIsLarge(h, c, proof);
  }

  lemma ClaimHasAProof(h: Hasher, claims: seq<Claim>, c: Claim, d: Claim)
    requires d in claims && d.amount > 0 && SameClaim(d, c)
    ensures exists proof: seq<nat> :: Verifies(h, TreeOf(h, claims).root, c.account, c.amount, proof)
  {
    hide AddressWord;
    var kept := Positive(claims);
    PositiveMembers(claims, d);
    var i :| 0 <= i < |kept| && kept[i] == d;
    EveryProofVerifies(h, claims, i);
    SameClaimSameLeaf(h, d, c);
    assert Verifies(h, TreeOf(h, claims).root, c.account, c.amount, TreeOf(h, claims).claims[i].proof);
  }

  /** One more step, past the account's word, turns an amount that was climbed to
      into the leaf of its claim; and from there the claim's own proof goes on. */
  lemma AmountHasAProof(h: Hasher, claims: seq<Claim>, c: Claim, d: Claim)
    requires CollisionFree(h) && d in claims && d.amount > 0 && IsAddress(d.account) && ClimbsToAmount(h, c, d)
    ensures exists proof: seq<nat> :: Verifies(h, TreeOf(h, claims).root, c.account, c.amount, proof)
  {
    hide AddressWord, IsAddress, Pow16;
    var kept := Positive(claims);
    PositiveMembers(claims, d);
    var i :| 0 <= i < |kept| && kept[i] == d;
    EveryProofVerifies(h, claims, i);
    var own := TreeOf(h, claims).claims[i].proof;
    var up: seq<nat> :| Climb(h, Leaf(h, c), up) == d.amount;
    AmountsReachedAreLarge(h, c, d);
    SameWordIff(d.account, d.account);
    var word := AddressWord(d.account);
    assert (up + [word])[..|up|] == up;
    assert Climb(h, Leaf(h, c), up + [word]) == Leaf(h, d);
    ClimbInStages(h, Leaf(h, c), up + [word], own);
    assert Verifies(h, TreeOf(h, claims).root, c.account, c.amount, up + [word] + own);
  }

  /** The bound on amounts is needed: the only claim of a tree being for as many
      units as the digest of some leaf `c`, a proof of one step verifies `c`. */
  lemma ADigestAsAmountVerifies(h: Hasher, holder: Address, c: Claim)
    requires CollisionFree(h) && IsAddress(holder)
    ensures var claims := [Claim(holder, Leaf(h, c))];
      Verifies(h, TreeOf(h, claims).root, c.account, c.amount, [AddressWord(holder)])
  {
    hide AddressWord, IsAddress, Pow16;
    SameWordIff(holder, holder);
    ClimbIsLarge(h, c, []);
    LimitIsPositive();
    var claims := [Claim(holder, Leaf(h, c))];
    assert Positive(claims) == claims by { assert claims[..0] == []; }
    assert [AddressWord(holder)][..0] == [];
  }

  // ----- the program -----

  /** The layers so far: each above the first is built from the one below it. */
  ghost predicate Stacked(h: Hasher, leaves: seq<nat>, layers: seq<seq<nat>>) {
    && layers != [] && layers[0] == leaves
    && (forall l :: 0 <= l < |layers| ==> layers[l] != [])
    && forall l :: 0 <= l < |layers| - 1 ==> |layers[l]| > 1 && layers[l + 1] == NextLayer(h, layers[l])
  }

  method PairUp(h: Hasher, prev: seq<nat>) returns (next: seq<nat>)
    ensures next == NextLayer(h, prev)
  {
    next := [];
    var i := 0;
    while i < |prev|
      invariant i % 2 == 0 && i <= |prev| + 1 && |next| == i / 2
      invariant next == NextLayer(h, prev)[..i / 2]
    {
      next := next + [if i + 1 < |prev| then h.Pair(prev[i], prev[i + 1]) else prev[i]];
      i := i + 2;
    }
  }

  method FilterPositive(claims: seq<Claim>) returns (kept: seq<Claim>)
    ensures kept == Positive(claims)
  {
    kept := [];
    for i := 0 to |claims|
      invariant kept == Positive(claims[..i])
    {
      assert claims[..i + 1][..i] == claims[..i];
      if claims[i].amount > 0 { kept := kept + [claims[i]]; }
    }
    assert claims[..|claims|] == claims;
  }

  method CollectProof(h: Hasher, layers: seq<seq<nat>>, idx: nat) returns (proof: seq<nat>)
    requires layers != [] && Stacked(h, layers[0], layers) && |layers[|layers| - 1]| == 1 && idx < |layers[0]|
    ensures proof == ProofOf(h, layers[0], idx)
  {
    hide NextLayer, ProofOf;
    proof := [];
    var i: nat := idx;
    for l := 0 to |layers| - 1
      invariant i < |layers[l]| && proof + ProofOf(h, layers[l], i) == ProofOf(h, layers[0], idx)
    {
      var layer := layers[l];
      HalfIndex(h, layer, i);
      ProofUnfolds(h, layer, i);
      var sib := if i % 2 == 0 then i + 1 else i - 1;
      if sib < |layer| { proof := proof + [layer[sib]]; }
      i := i / 2;
    }
    TopProof(h, layers[|layers| - 1]);
  }

  lemma ProofUnfolds(h: Hasher, layer: seq<nat>, i: nat)
    requires i < |layer| && |layer| > 1
    ensures ProofOf(h, layer, i) == Sibling(layer, i) + ProofOf(h, NextLayer(h, layer), i / 2)
  {
  }

  lemma TopProof(h: Hasher, layer: seq<nat>)
    requires |layer| == 1
    ensures ProofOf(h, layer, 0) == []
  {
  }

  lemma HalfIndex(h: Hasher, layer: seq<nat>, i: nat)
    requires i < |layer|
    ensures i / 2 < |NextLayer(h, layer)| && |NextLayer(h, layer)| == (|layer| + 1) / 2
  {
  }

  lemma StackOne(h: Hasher, leaves: seq<nat>, layers: seq<seq<nat>>)
    requires Stacked(h, leaves, layers) && |layers[|layers| - 1]| > 1
    ensures Stacked(h, leaves, layers + [NextLayer(h, layers[|layers| - 1])])
  {
    var top := layers[|layers| - 1];
    HalfIndex(h, top, 0);
    hide NextLayer;
    var taller := layers + [NextLayer(h, top)];
    forall l | 0 <= l < |taller| - 1
      ensures |taller[l]| > 1 && taller[l + 1] == NextLayer(h, taller[l])
    {
      if l < |layers| - 1 { assert taller[l] == layers[l] && taller[l + 1] == layers[l + 1]; }
    }
  }

  lemma StackLeaves(h: Hasher, leaves: seq<nat>)
    requires leaves != []
    ensures Stacked(h, leaves, [leaves])
  {
  }

  method BuildPrizeTree(h: Hasher, claims: seq<Claim>) returns (tree: PrizeTree)
    ensures tree == TreeOf(h, claims)
  {
    hide NextLayer, ProofOf, Stacked;
    var kept := FilterPositive(claims);
    if |kept| == 0 { return PrizeTree(0, []); }

    var leaves := Leaves(h, kept);
    var layers := [leaves];
    StackLeaves(h, leaves);
    while |layers[|layers| - 1]| > 1
      invariant layers != [] && layers[0] == leaves && layers[|layers| - 1] != []
      invariant Stacked(h, leaves, layers)
      invariant Root(h, layers[|layers| - 1]) == Root(h, leaves)
      decreases |layers[|layers| - 1]|
    {
      HalfIndex(h, layers[|layers| - 1], 0);
      StackOne(h, leaves, layers);
      var next := PairUp(h, layers[|layers| - 1]);
      layers := layers + [next];
    }
    var root := layers[|layers| - 1][0];

    var out := [];
    for idx := 0 to |kept|
      invariant |out| == idx
      invariant forall k :: 0 <= k < idx ==>
        out[k] == Proven(kept[k].account, kept[k].amount, ProofOf(h, leaves, k))
    {
      var proof := CollectProof(h, layers, idx);
      out := out + [Proven(kept[idx].account, kept[idx].amount, proof)];
    }
    return PrizeTree(root, out);
  }

  method VerifyProof(h: Hasher, root: nat, account: Address, amount: int, proof: seq<nat>) returns (ok: bool)
    ensures ok == Verifies(h, root, account, amount, proof)
  {
    var d := h.Leaf(account, amount);
    for i := 0 to |proof|
      invariant d == Climb(h, h.Leaf(account, amount), proof[..i])
    {
      assert proof[..i + 1][..i] == proof[..i];
      d := h.Pair(d, proof[i]);
    }
    assert proof[..|proof|] == proof;
    return d == root;
  }
}
