/**
 * Room identifiers: five characters drawn from an upper-case alphanumeric
 * alphabet, redrawn until the result is not the id of a live room.
 *
 * The random source is an oracle: `rand(n)` is the n-th value that
 * `Math.random()` returns during one call of the generator, a real in
 * [0, 1). Each character is `Alphabet[floor(rand(n) * 36)]`, as in the
 * server, so only the alphabet, the length and the freshness check are
 * fixed by the model; which id comes out depends on the oracle.
 */
module GameIds {

  type GameId = string

  const Alphabet: string := "ABCDEFGHIJKLMNOPQRSTUVWXYZ0123456789"
  const IdLength: nat := 5

  /** The characters of the alphabet: an upper-case letter or a digit. */
  predicate IsIdChar(ch: char) {
    'A' <= ch <= 'Z' || '0' <= ch <= '9'
  }

  /** A well-formed room id: the right length, every character an upper-case letter or a digit. */
  predicate IsGameId(s: string) {
    |s| == IdLength && forall i :: 0 <= i < |s| ==> IsIdChar(s[i])
  }

  /** Every value of the oracle lies in [0, 1), as `Math.random()` promises. */
  ghost predicate ValidDraws(rand: nat -> real) {
    forall n :: 0.0 <= rand(n) < 1.0
  }

  /** `chars.charAt(Math.floor(x * chars.length))` for a draw `x`. */
  function CharOf(x: real): (ch: char)
    requires 0.0 <= x < 1.0
    ensures IsIdChar(ch)
  {
    Alphabet[Scaled(x)]
  }

  /** `Math.floor(x * chars.length)`: a position in the alphabet for every draw in [0, 1). */
  function Scaled(x: real): (k: int)
    requires 0.0 <= x < 1.0
    ensures 0 <= k < |Alphabet|
  {
    (x * (|Alphabet| as real)).Floor
  }

  /**
   * The id built by the `attempt`-th pass of the outer loop: a well-formed
   * id whose j-th character comes from draw 5*attempt + j.
   */
  function Candidate(rand: nat -> real, attempt: nat): (id: GameId)
    requires ValidDraws(rand)
    ensures IsGameId(id)
    ensures forall j :: 0 <= j < IdLength ==> id[j] == CharOf(rand(IdLength * attempt + j))
  {
    var id := seq(IdLength, i requires 0 <= i < IdLength => CharOf(rand(IdLength * attempt + i)));
    assert forall j :: 0 <= j < |id| ==> id[j] == CharOf(rand(IdLength * attempt + j));
    id
  }

  /** A string built from the draws of pass `attempt`, one character per draw, is that pass's candidate. */
  lemma BuiltIsCandidate(rand: nat -> real, attempt: nat, id: string)
    requires ValidDraws(rand)
    requires |id| == IdLength
    requires forall j :: 0 <= j < IdLength ==> id[j] == CharOf(rand(IdLength * attempt + j))
    ensures id == Candidate(rand, attempt)
  {
  }

  /** The oracle eventually yields an id that is not taken; without this the generator never returns. */
  ghost predicate EventuallyFresh(taken: set<GameId>, rand: nat -> real) {
    ValidDraws(rand) && exists k: nat :: Candidate(rand, k) !in taken
  }

  /** With no live rooms the very first candidate is free. */
  lemma NoRoomsFirstCandidateFree(rand: nat -> real)
    requires ValidDraws(rand)
    ensures EventuallyFresh({}, rand)
  {
    var none: set<GameId> := {};
    assert Candidate(rand, 0) !in none;
  }

  /** On an empty table the generator stops after one pass: its id is built from the first five draws. */
  method FirstIdOnEmptyTable(rand: nat -> real) returns (id: GameId)
    requires ValidDraws(rand)
    ensures id == Candidate(rand, 0)
  {
    var none: set<GameId> := {};
    NoRoomsFirstCandidateFree(rand);
    ghost var attempt;
    id, attempt := GenerateGameId(none, rand);
    assert Candidate(rand, 0) !in none;
    assert attempt == 0;
  }

  /** One pass of the do-while loop: the inner `for` loop appends one character per draw. */
  method DrawId(rand: nat -> real, pass: nat) returns (id: GameId)
    requires ValidDraws(rand)
    ensures id == Candidate(rand, pass)
  {
    id := "";
    for i := 0 to IdLength
      invariant |id| == i
      invariant forall j :: 0 <= j < i ==> id[j] == CharOf(rand(IdLength * pass + j))
    {
      id := id + [CharOf(rand(IdLength * pass + i))];
    }
    BuiltIsCandidate(rand, pass, id);
  }

  /**
   * The do-while loop of the generator: build a candidate character by
   * character, and retry while it is already a key of the room table.
   * The result is the FIRST candidate the oracle yields that is not taken:
   * the ghost `attempt` counts the candidates rejected before it.
   */
  method GenerateGameId(taken: set<GameId>, rand: nat -> real) returns (id: GameId, ghost attempt: nat)
    requires EventuallyFresh(taken, rand)
    ensures IsGameId(id) && id !in taken
    ensures id == Candidate(rand, attempt)
    ensures forall j: nat :: j < attempt ==> Candidate(rand, j) in taken
  {
    ghost var bound: nat :| Candidate(rand, bound) !in taken;
    var pass: nat := 0;
    while true
      invariant pass <= bound
      invariant forall j: nat :: j < pass ==> Candidate(rand, j) in taken
      decreases bound - pass
    {
      id := DrawId(rand, pass);
      if id !in taken {
        attempt := pass;
        return;
      }
      pass := pass + 1;
    }
  }
}
