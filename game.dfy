/** One game session: its settings and secret code, the scoring of a guess
    (bulls and cows), the grade shown for a score, and the turn loop that ends
    when a guess scores as many bulls as the code is long. */
module Game {

  import opened ValidationUtil
  import opened CodeGenerator

  // ---------------------------------------------------------------------------
  // Scoring, as functions

  /** Bulls among the first `n` positions of the secret: positions where the guess
      is long enough and holds the same character. */
  function BullsUpTo(secret: string, guess: string, n: nat): (r: nat)
    requires n <= |secret|
    ensures r <= n && r <= |guess|
  {
    if n == 0 then 0
    else BullsUpTo(secret, guess, n - 1) + (if n - 1 < |guess| && secret[n - 1] == guess[n - 1] then 1 else 0)
  }

  /** Bulls of a guess: never more than either length. */
  function Bulls(secret: string, guess: string): (r: nat)
    ensures r <= |secret| && r <= |guess|
  {
    BullsUpTo(secret, guess, |secret|)
  }

  /** Cows contributed by secret position `i` against the first `m` guess positions:
      every other position holding the secret's character counts once. */
  function CowsInRow(secret: string, guess: string, i: nat, m: nat): nat
    requires i < |secret| && m <= |guess|
  {
    if m == 0 then 0
    else CowsInRow(secret, guess, i, m - 1) + (if i != m - 1 && secret[i] == guess[m - 1] then 1 else 0)
  }

  /** Cows contributed by the first `n` secret positions. */
  function CowsUpTo(secret: string, guess: string, n: nat): nat
    requires n <= |secret|
  {
    if n == 0 then 0 else CowsUpTo(secret, guess, n - 1) + CowsInRow(secret, guess, n - 1, |guess|)
  }

  /** Cows of a guess, with multiplicity. */
  function Cows(secret: string, guess: string): nat
  {
    CowsUpTo(secret, guess, |secret|)
  }

  // ---------------------------------------------------------------------------
  // Reference definitions: the positions and pairs that are counted

  ghost function MatchesUpTo(secret: string, guess: string, n: nat): set<nat>
  {
    set i: nat | i < n && i < |secret| && i < |guess| && secret[i] == guess[i]
  }

  /** Positions where secret and guess agree. */
  ghost function MatchPositions(secret: string, guess: string): set<nat>
  {
    MatchesUpTo(secret, guess, |secret|)
  }

  ghost function RowPairs(secret: string, guess: string, i: nat, m: nat): set<(nat, nat)>
    requires i < |secret| && m <= |guess|
  {
    set j: nat | j < m && i != j && secret[i] == guess[j] :: (i, j)
  }

  ghost function PairsUpTo(secret: string, guess: string, n: nat): set<(nat, nat)>
    requires n <= |secret|
  {
    set i: nat, j: nat | i < n && j < |guess| && i != j && secret[i] == guess[j] :: (i, j)
  }

  /** Pairs (i, j) of a secret position and a different guess position holding
      the same character. */
  ghost function CowPairs(secret: string, guess: string): set<(nat, nat)>
  {
    PairsUpTo(secret, guess, |secret|)
  }

  lemma {:induction false} BullsUpToCountsMatches(secret: string, guess: string, n: nat)
    requires n <= |secret|
    ensures BullsUpTo(secret, guess, n) == |MatchesUpTo(secret, guess, n)|
  {
    if n == 0 {
      assert MatchesUpTo(secret, guess, 0) == {};
    } else {
      BullsUpToCountsMatches(secret, guess, n - 1);
      var prev := MatchesUpTo(secret, guess, n - 1);
      if n - 1 < |guess| && secret[n - 1] == guess[n - 1] {
        assert MatchesUpTo(secret, guess, n) == prev + {n - 1};
        assert n - 1 !in prev;
      } else {
        assert MatchesUpTo(secret, guess, n) == prev;
      }
    }
  }

  /** Bulls are exactly the number of positions where secret and guess agree. */
  lemma BullsCountsMatchPositions(secret: string, guess: string)
    ensures Bulls(secret, guess) == |MatchPositions(secret, guess)|
  {
    BullsUpToCountsMatches(secret, guess, |secret|);
  }

  lemma {:induction false} RowCountsPairs(secret: string, guess: string, i: nat, m: nat)
    requires i < |secret| && m <= |guess|
    ensures CowsInRow(secret, guess, i, m) == |RowPairs(secret, guess, i, m)|
  {
    if m == 0 {
      assert RowPairs(secret, guess, i, 0) == {};
    } else {
      RowCountsPairs(secret, guess, i, m - 1);
      var prev := RowPairs(secret, guess, i, m - 1);
      if i != m - 1 && secret[i] == guess[m - 1] {
        assert RowPairs(secret, guess, i, m) == prev + {(i, m - 1)};
        assert (i, m - 1) !in prev;
      } else {
        assert RowPairs(secret, guess, i, m) == prev;
      }
    }
  }

  lemma {:induction false} CowsUpToCountsPairs(secret: string, guess: string, n: nat)
    requires n <= |secret|
    ensures CowsUpTo(secret, guess, n) == |PairsUpTo(secret, guess, n)|
  {
    if n == 0 {
      assert PairsUpTo(secret, guess, 0) == {};
    } else {
      CowsUpToCountsPairs(secret, guess, n - 1);
      RowCountsPairs(secret, guess, n - 1, |guess|);
      var prev := PairsUpTo(secret, guess, n - 1);
      var row := RowPairs(secret, guess, n - 1, |guess|);
      assert PairsUpTo(secret, guess, n) == prev + row;
      assert prev * row == {} by {
        forall p | p in row ensures p !in prev {
          assert p.0 == n - 1;
        }
      }
    }
  }

  /** Cows are exactly the number of pairs of a secret position and a different
      guess position that hold the same character; repeated characters count
      once per pair. */
  lemma CowsCountsPairs(secret: string, guess: string)
    ensures Cows(secret, guess) == |CowPairs(secret, guess)|
  {
    CowsUpToCountsPairs(secret, guess, |secret|);
  }

  // ---------------------------------------------------------------------------
  // Properties of the score

  lemma {:induction false} EmptyGuessUpTo(secret: string, n: nat)
    requires n <= |secret|
    ensures BullsUpTo(secret, "", n) == 0 && CowsUpTo(secret, "", n) == 0
  {
    if n > 0 {
      EmptyGuessUpTo(secret, n - 1);
    }
  }

  /** An empty guess scores nothing. */
  lemma EmptyGuess(secret: string)
    ensures Bulls(secret, "") == 0 && Cows(secret, "") == 0
  {
    EmptyGuessUpTo(secret, |secret|);
  }

  lemma {:induction false} SelfRowHasNoCows(secret: string, i: nat, m: nat)
    requires Distinct(secret)
    requires i < |secret| && m <= |secret|
    ensures CowsInRow(secret, secret, i, m) == 0
  {
    if m > 0 {
      SelfRowHasNoCows(secret, i, m - 1);
    }
  }

  lemma {:induction false} SelfScoreUpTo(secret: string, n: nat)
    requires Distinct(secret)
    requires n <= |secret|
    ensures BullsUpTo(secret, secret, n) == n && CowsUpTo(secret, secret, n) == 0
  {
    if n > 0 {
      SelfScoreUpTo(secret, n - 1);
      SelfRowHasNoCows(secret, n - 1, |secret|);
    }
  }

  /** A code without repeated symbols, guessed exactly, scores one bull per symbol
      and no cows. */
  lemma SelfScore(secret: string)
    requires Distinct(secret)
    ensures Bulls(secret, secret) == |secret| && Cows(secret, secret) == 0
  {
    SelfScoreUpTo(secret, |secret|);
  }

  lemma {:induction false} AllBullsUpTo(secret: string, guess: string, n: nat)
    requires n <= |secret|
    ensures BullsUpTo(secret, guess, n) == n <==> n <= |guess| && forall i :: 0 <= i < n ==> secret[i] == guess[i]
  {
    if n > 0 {
      AllBullsUpTo(secret, guess, n - 1);
    }
  }

  /** A guess scores as many bulls as the secret is long exactly when it begins
      with the whole secret; a longer guess with that prefix also scores fully. */
  lemma AllBulls(secret: string, guess: string)
    ensures Bulls(secret, guess) == |secret| <==> |secret| <= |guess| && guess[..|secret|] == secret
  {
    AllBullsUpTo(secret, guess, |secret|);
    if |secret| <= |guess| && (forall i :: 0 <= i < |secret| ==> secret[i] == guess[i]) {
      assert guess[..|secret|] == secret;
    }
  }

  /** Scores of small cases: a guess reversed around its middle, a short guess,
      a repeated symbol counted as a cow, and a guess whose bulls and cows
      together exceed the code length. */
  lemma ScoreExamples()
    ensures Bulls("123", "321") == 1 && Cows("123", "321") == 2
    ensures Bulls("123", "1") == 1 && Cows("123", "1") == 0
    ensures Bulls("12", "11") == 1 && Cows("12", "11") == 1
    ensures Bulls("12", "122") == 2 && Cows("12", "122") == 1
  {
    var s, g := "123", "321";
    assert BullsUpTo(s, g, 1) == 0 && BullsUpTo(s, g, 2) == 1 && BullsUpTo(s, g, 3) == 1;
    assert CowsInRow(s, g, 0, 3) == 1 && CowsInRow(s, g, 1, 3) == 0 && CowsInRow(s, g, 2, 3) == 1;
    assert CowsUpTo(s, g, 3) == 2;
    g := "1";
    assert BullsUpTo(s, g, 1) == 1 && BullsUpTo(s, g, 2) == 1 && BullsUpTo(s, g, 3) == 1;
    assert CowsInRow(s, g, 0, 1) == 0 && CowsInRow(s, g, 1, 1) == 0 && CowsInRow(s, g, 2, 1) == 0;
    assert CowsUpTo(s, g, 3) == 0;
    s, g := "12", "11";
    assert BullsUpTo(s, g, 1) == 1 && BullsUpTo(s, g, 2) == 1;
    assert CowsInRow(s, g, 0, 2) == 1 && CowsInRow(s, g, 1, 2) == 0;
    assert CowsUpTo(s, g, 2) == 1;
    g := "122";
    assert BullsUpTo(s, g, 1) == 1 && BullsUpTo(s, g, 2) == 2;
    assert CowsInRow(s, g, 0, 3) == 0 && CowsInRow(s, g, 1, 3) == 1;
    assert CowsUpTo(s, g, 2) == 1;
  }

  /** Matches of secret position `i` against the first `m` guess positions,
      the same position included. */
  function MatchesInRow(secret: string, guess: string, i: nat, m: nat): nat
    requires i < |secret| && m <= |guess|
  {
    if m == 0 then 0
    else MatchesInRow(secret, guess, i, m - 1) + (if secret[i] == guess[m - 1] then 1 else 0)
  }

  /** Matches of the first `n` secret positions against the first `m` guess positions. */
  function AllMatches(secret: string, guess: string, n: nat, m: nat): nat
    requires n <= |secret| && m <= |guess|
  {
    if n == 0 then 0 else AllMatches(secret, guess, n - 1, m) + MatchesInRow(secret, guess, n - 1, m)
  }

  /** Occurrences of `c` among the first `n` secret positions. */
  function Hits(secret: string, c: char, n: nat): nat
    requires n <= |secret|
  {
    if n == 0 then 0 else Hits(secret, c, n - 1) + (if secret[n - 1] == c then 1 else 0)
  }

  lemma {:induction false} RowSplit(secret: string, guess: string, i: nat, m: nat)
    requires i < |secret| && m <= |guess|
    ensures CowsInRow(secret, guess, i, m) + (if i < m && secret[i] == guess[i] then 1 else 0)
            == MatchesInRow(secret, guess, i, m)
  {
    if m > 0 {
      RowSplit(secret, guess, i, m - 1);
    }
  }

  lemma {:induction false} ScoreSplit(secret: string, guess: string, n: nat)
    requires n <= |secret|
    ensures BullsUpTo(secret, guess, n) + CowsUpTo(secret, guess, n) == AllMatches(secret, guess, n, |guess|)
  {
    if n > 0 {
      ScoreSplit(secret, guess, n - 1);
      RowSplit(secret, guess, n - 1, |guess|);
    }
  }

  lemma {:induction false} AllMatchesStep(secret: string, guess: string, n: nat, m: nat)
    requires n <= |secret| && 0 < m <= |guess|
    ensures AllMatches(secret, guess, n, m) == AllMatches(secret, guess, n, m - 1) + Hits(secret, guess[m - 1], n)
  {
    if n > 0 {
      AllMatchesStep(secret, guess, n - 1, m);
    }
  }

  lemma {:induction false} HitsAtMostOne(secret: string, c: char, n: nat)
    requires Distinct(secret) && n <= |secret|
    ensures Hits(secret, c, n) <= 1
    ensures Hits(secret, c, n) == 1 ==> exists i :: 0 <= i < n && secret[i] == c
  {
    if n > 0 {
      HitsAtMostOne(secret, c, n - 1);
      if Hits(secret, c, n - 1) == 1 {
        var i :| 0 <= i < n - 1 && secret[i] == c;
        assert secret[i] != secret[n - 1];
      }
    }
  }

  lemma {:induction false} AllMatchesBound(secret: string, guess: string, m: nat)
    requires Distinct(secret) && m <= |guess|
    ensures AllMatches(secret, guess, |secret|, m) <= m
  {
    if m == 0 {
      EmptyRows(secret, guess, |secret|);
    } else {
      AllMatchesBound(secret, guess, m - 1);
      AllMatchesStep(secret, guess, |secret|, m);
      HitsAtMostOne(secret, guess[m - 1], |secret|);
    }
  }

  lemma {:induction false} EmptyRows(secret: string, guess: string, n: nat)
    requires n <= |secret|
    ensures AllMatches(secret, guess, n, 0) == 0
  {
    if n > 0 {
      EmptyRows(secret, guess, n - 1);
    }
  }

  /** Against a secret without repeats, each guess position matches at most one
      secret position, so bulls and cows together never exceed the guess length. */
  lemma ScoreBound(secret: string, guess: string)
    requires Distinct(secret)
    ensures Bulls(secret, guess) + Cows(secret, guess) <= |guess|
  {
    ScoreSplit(secret, guess, |secret|);
    AllMatchesBound(secret, guess, |guess|);
  }

  // ---------------------------------------------------------------------------
  // Grades

  /** The four kinds of feedback a score receives. */
  datatype Grade =
    | NoGrade
    | BullsOnly(bulls: nat)
    | CowsOnly(cows: nat)
    | BullsAndCows(bulls: nat, cows: nat)

  /** Sorts a score into exactly one of the four grades, keeping the counts shown. */
  function PrintResult(bulls: nat, cows: nat): (g: Grade)
    ensures g.NoGrade? <==> bulls == 0 && cows == 0
    ensures g.BullsOnly? <==> bulls > 0 && cows == 0
    ensures g.CowsOnly? <==> cows > 0 && bulls == 0
    ensures g.BullsAndCows? <==> bulls > 0 && cows > 0
    ensures g.BullsOnly? ==> g.bulls == bulls
    ensures g.CowsOnly? ==> g.cows == cows
    ensures g.BullsAndCows? ==> g.bulls == bulls && g.cows == cows
  {
    if bulls == 0 && cows == 0 then NoGrade
    else if bulls > 0 && cows == 0 then BullsOnly(bulls)
    else if cows > 0 && bulls == 0 then CowsOnly(cows)
    else BullsAndCows(bulls, cows)
  }

  // ---------------------------------------------------------------------------
  // The game session

  class Game {
    var codeLength: int
    var numberOfSymbols: int
    var secretCode: string

    /** A fresh session: no settings yet and an empty secret. */
    constructor ()
      ensures codeLength == 0 && numberOfSymbols == 0 && secretCode == ""
    {
      codeLength := 0;
      numberOfSymbols := 0;
      secretCode := "";
    }

    method SetCodeLength(codeLength: int)
      modifies this
      ensures this.codeLength == codeLength
      ensures numberOfSymbols == old(numberOfSymbols) && secretCode == old(secretCode)
    {
      this.codeLength := codeLength;
    }

    method SetNumberOfSymbols(numberOfSymbols: int)
      modifies this
      ensures this.numberOfSymbols == numberOfSymbols
      ensures codeLength == old(codeLength) && secretCode == old(secretCode)
    {
      this.numberOfSymbols := numberOfSymbols;
    }

    method SetSecretCode(secretCode: string)
      modifies this
      ensures this.secretCode == secretCode
      ensures codeLength == old(codeLength) && numberOfSymbols == old(numberOfSymbols)
    {
      this.secretCode := secretCode;
    }

    /** Counts positions of the secret where the guess holds the same character;
        positions past the end of the guess are never read. */
    method CalculateBulls(secretCode: string, userGuess: string) returns (bulls: nat)
      ensures bulls == Bulls(secretCode, userGuess)
      ensures bulls <= |secretCode| && bulls <= |userGuess|
    {
      bulls := 0;
      var i := 0;
      while i < |secretCode|
        invariant 0 <= i <= |secretCode|
        invariant bulls == BullsUpTo(secretCode, userGuess, i)
      {
        if i < |userGuess| && secretCode[i] == userGuess[i] {
          bulls := bulls + 1;
        }
        i := i + 1;
      }
    }

    /** Counts every pair of a secret position and a different guess position
        holding the same character. */
    method CalculateCows(secretCode: string, userGuess: string) returns (cows: nat)
      ensures cows == Cows(secretCode, userGuess)
      ensures cows == |CowPairs(secretCode, userGuess)|
    {
      cows := 0;
      var i := 0;
      while i < |secretCode|
        invariant 0 <= i <= |secretCode|
        invariant cows == CowsUpTo(secretCode, userGuess, i)
      {
        var j := 0;
        while j < |userGuess|
          invariant 0 <= j <= |userGuess|
          invariant cows == CowsUpTo(secretCode, userGuess, i) + CowsInRow(secretCode, userGuess, i, j)
        {
          if i != j && secretCode[i] == userGuess[j] {
            cows := cows + 1;
          }
          j := j + 1;
        }
        i := i + 1;
      }
      CowsCountsPairs(secretCode, userGuess);
    }

    /** The turn loop, fed by the player's guesses in order. It stops on the first
        guess whose bulls reach the code length (`won`), or when the guesses run
        out; each turn's grade is recorded in `grades`. */
    method PlayGame(guesses: seq<string>) returns (turns: nat, won: bool, grades: seq<Grade>)
      ensures turns <= |guesses| && |grades| == turns
      ensures forall k :: 0 <= k < turns ==>
        grades[k] == PrintResult(Bulls(secretCode, guesses[k]), Cows(secretCode, guesses[k]))
      ensures forall k :: 0 <= k < turns - 1 ==> Bulls(secretCode, guesses[k]) < codeLength
      ensures won <==> (turns == 0 && codeLength <= 0) ||
                       (turns > 0 && Bulls(secretCode, guesses[turns - 1]) >= codeLength)
      ensures !won ==> turns == |guesses|
      ensures won && turns > 0 && |secretCode| == codeLength ==>
        |secretCode| <= |guesses[turns - 1]| && guesses[turns - 1][..|secretCode|] == secretCode
    {
      turns := 0;
      grades := [];
      var bulls := 0;
      while bulls < codeLength && turns < |guesses|
        invariant 0 <= turns <= |guesses| && |grades| == turns
        invariant forall k :: 0 <= k < turns ==>
          grades[k] == PrintResult(Bulls(secretCode, guesses[k]), Cows(secretCode, guesses[k]))
        invariant forall k :: 0 <= k < turns - 1 ==> Bulls(secretCode, guesses[k]) < codeLength
        invariant turns == 0 ==> bulls == 0
        invariant turns > 0 ==> bulls == Bulls(secretCode, guesses[turns - 1])
        decreases |guesses| - turns
      {
        var userGuess := guesses[turns];
        bulls := CalculateBulls(secretCode, userGuess);
        var cows := CalculateCows(secretCode, userGuess);
        grades := grades + [PrintResult(bulls, cows)];
        turns := turns + 1;
      }
      won := bulls >= codeLength;
      if won && turns > 0 && |secretCode| == codeLength {
        AllBulls(secretCode, guesses[turns - 1]);
      }
    }
  }

  // ---------------------------------------------------------------------------
  // Across components

  /** Settings accepted by both validators always admit a completed secret
      code. A length of zero or less (possible under a configured minimum below 1)
      completes at once with the empty code. */
  lemma ValidatedSettingsAdmitCode(cfg: Config, codeLength: int, numberOfSymbols: int)
    requires ValidatePasswordLength(cfg, codeLength).Pass?
    requires ValidateNumberOfSymbols(numberOfSymbols, codeLength).Pass?
    ensures DrawsBelow(Ascending(0, if codeLength < 0 then 0 else codeLength), numberOfSymbols)
    ensures RandomCode(codeLength, numberOfSymbols, Ascending(0, if codeLength < 0 then 0 else codeLength)).Some?
  {
    if codeLength >= 0 {
      AscendingDrawsComplete(codeLength, numberOfSymbols);
    }
  }

  /** Under a configured minimum length of at least 1 (the default is 1), a
      generated secret, guessed exactly, scores a bull per symbol and no cows,
      which is the winning grade: the game ends on that turn. */
  lemma GeneratedSecretWinsWhenGuessed(cfg: Config, codeLength: int, numberOfSymbols: int, attempts: seq<seq<nat>>)
    requires cfg.minPasswordLength >= 1
    requires ValidatePasswordLength(cfg, codeLength).Pass?
    requires ValidateNumberOfSymbols(numberOfSymbols, codeLength).Pass?
    requires |attempts| > 0 && AttemptsBelow(attempts, numberOfSymbols)
    requires ValidCode(codeLength, numberOfSymbols, attempts).Some?
    ensures var secret := ValidCode(codeLength, numberOfSymbols, attempts).value;
      |secret| == codeLength &&
      Bulls(secret, secret) == codeLength && Cows(secret, secret) == 0 &&
      PrintResult(Bulls(secret, secret), Cows(secret, secret)) == BullsOnly(codeLength)
  {
    FirstAttemptIsValid(codeLength, numberOfSymbols, attempts);
    RandomCodeCorrect(codeLength, numberOfSymbols, attempts[0]);
    SelfScore(ValidCode(codeLength, numberOfSymbols, attempts).value);
  }
}
