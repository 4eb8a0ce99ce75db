/** The game a search is run on (mcts-core/src/environment.rs). */
module Environment {
  type Act = nat       // an action and its dense index: every implementation in the source is an `as usize` cast
  type NodeId = nat    // a state hash

  /** The methods of the `Environment` trait, as functions of the state. */
  datatype Game<!S> = Game(
    step: (S, Act) -> S,
    done: S -> bool,
    valid: S -> seq<Act>,
    numActions: S -> nat,
    hash: S -> NodeId)

  /** Every valid action's index lies below the state's own bound. */
  ghost predicate IndexContract<S(!new)>(game: Game<S>) {
    forall s, a :: a in game.valid(s) ==> a < game.numActions(s)
  }

  /** Two states the hash identifies are interchangeable for the search. */
  ghost predicate Interchangeable<S(!new)>(game: Game<S>, s: S, t: S) {
    game.hash(s) == game.hash(t) ==>
      && game.done(s) == game.done(t)
      && game.valid(s) == game.valid(t)
      && game.numActions(s) == game.numActions(t)
      && forall a :: a in game.valid(s) ==> game.hash(game.step(s, a)) == game.hash(game.step(t, a))
  }

  ghost predicate FaithfulHash<S(!new)>(game: Game<S>) {
    forall s, t :: Interchangeable(game, s, t)
  }

  ghost predicate Lawful<S(!new)>(game: Game<S>) {
    IndexContract(game) && FaithfulHash(game)
  }
}
