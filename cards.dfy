/** The five roles and the fifteen-card deck they make up. */
module Cards {

  datatype Role = Duke | Assassin | Captain | Ambassador | Contessa

  /** The roles in the order the deck is built from. */
  const Roles: seq<Role> := [Duke, Assassin, Captain, Ambassador, Contessa]

  /** Copies of each role in a fresh deck. */
  const CopiesPerRole: nat := 3

  /** Each role of `rs`, repeated three times in place. */
  function Tripled(rs: seq<Role>): (d: seq<Role>)
    ensures |d| == 3 * |rs|
  {
    if rs == [] then [] else [rs[0], rs[0], rs[0]] + Tripled(rs[1..])
  }

  lemma {:induction false} TripledCounts(rs: seq<Role>, r: Role)
    ensures multiset(Tripled(rs))[r] == 3 * multiset(rs)[r]
  {
    if rs != [] {
      TripledCounts(rs[1..], r);
      assert rs == [rs[0]] + rs[1..];
      assert multiset(rs) == multiset([rs[0]]) + multiset(rs[1..]);
      assert Tripled(rs) == [rs[0], rs[0], rs[0]] + Tripled(rs[1..]);
      assert multiset(Tripled(rs)) == multiset([rs[0], rs[0], rs[0]]) + multiset(Tripled(rs[1..]));
    }
  }

  lemma RoleListedOnce(r: Role)
    ensures multiset(Roles)[r] == 1
  {
    assert multiset(Roles) == multiset{Duke, Assassin, Captain, Ambassador, Contessa};
    match r
    case Duke =>
    case Assassin =>
    case Captain =>
    case Ambassador =>
    case Contessa =>
  }

  /** The unshuffled deck of the source's `initializeDeck`: three of every role. */
  function FullDeck(): (d: seq<Role>)
    ensures |d| == 15
    ensures forall r: Role :: multiset(d)[r] == CopiesPerRole
  {
    var d := Tripled(Roles);
    forall r: Role ensures multiset(d)[r] == CopiesPerRole {
      TripledCounts(Roles, r);
      RoleListedOnce(r);
    }
    d
  }

  /** A shuffle only reorders: this is all the model assumes of `Math.random`-driven sorting. */
  ghost predicate IsShuffle(shuffle: seq<Role> -> seq<Role>)
  {
    forall s :: multiset(shuffle(s)) == multiset(s)
  }

  /** `initializeDeck`: the full deck in whatever order the shuffle produces. */
  function InitializeDeck(shuffle: seq<Role> -> seq<Role>): (d: seq<Role>)
    ensures IsShuffle(shuffle) ==> |d| == 15
    ensures IsShuffle(shuffle) ==> forall r: Role :: multiset(d)[r] == CopiesPerRole
  {
    var d := shuffle(FullDeck());
    assert IsShuffle(shuffle) ==> |d| == 15 by {
      if IsShuffle(shuffle) {
        assert multiset(d) == multiset(FullDeck());
        assert |d| == |multiset(d)| == |multiset(FullDeck())|;
      }
    }
    d
  }
}
