/** Generation of the secret code: the base-36 alphabet, rejection sampling of
    distinct symbols, the repetition check, and the retry loop around them.
    The random number generator is replaced by an oracle: a sequence of the
    indices `nextInt` would return, each below the alphabet size. */
module CodeGenerator {

  import opened ValidationUtil

  datatype Option<T> = None | Some(value: T)

  predicate IsDigit(c: char) { '0' <= c <= '9' }
  predicate IsLowerLetter(c: char) { 'a' <= c <= 'z' }

  /** No character occurs twice. */
  predicate Distinct(s: string)
  {
    forall i, j :: 0 <= i < j < |s| ==> s[i] != s[j]
  }

  /** Symbol number `i` of the alphabet: digits first, then lower-case letters. */
  function SymbolAt(i: nat): (c: char)
    requires i < MaxSymbols
    ensures i < 10 ==> IsDigit(c) && c as int - '0' as int == i
    ensures 10 <= i ==> IsLowerLetter(c) && c as int - 'a' as int == i - 10
  {
    if i < 10 then ('0' as int + i) as char else ('a' as int + i - 10) as char
  }

  /** The first `n` symbols (none when `n` is not positive). */
  function Alphabet(n: int): (r: seq<char>)
    requires n <= MaxSymbols
    ensures |r| == if n < 0 then 0 else n
    ensures forall i :: 0 <= i < |r| ==> r[i] == SymbolAt(i)
    decreases n
  {
    if n <= 0 then [] else Alphabet(n - 1) + [SymbolAt(n - 1)]
  }

  /** Every symbol of an alphabet is a digit or a lower-case letter, and no symbol repeats. */
  lemma AlphabetWellFormed(n: int)
    requires n <= MaxSymbols
    ensures Distinct(Alphabet(n))
    ensures forall c :: c in Alphabet(n) ==> IsDigit(c) || IsLowerLetter(c)
  {
  }

  /** Builds the alphabet one symbol at a time, as the source fills its list. */
  method GenerateSymbols(numberOfSymbols: int) returns (symbols: seq<char>)
    requires numberOfSymbols <= MaxSymbols
    ensures symbols == Alphabet(numberOfSymbols)
    ensures |symbols| == if numberOfSymbols < 0 then 0 else numberOfSymbols
    ensures forall i :: 0 <= i < |symbols| ==>
      (i < 10 ==> symbols[i] as int == '0' as int + i) &&
      (i >= 10 ==> symbols[i] as int == 'a' as int + i - 10)
  {
    symbols := [];
    var i := 0;
    while i < numberOfSymbols
      invariant 0 <= i
      invariant numberOfSymbols >= 0 ==> i <= numberOfSymbols
      invariant numberOfSymbols < 0 ==> i == 0
      invariant symbols == Alphabet(i)
    {
      if i < 10 {
        symbols := symbols + [('0' as int + i) as char];
      } else {
        symbols := symbols + [('a' as int + i - 10) as char];
      }
      i := i + 1;
    }
  }

  /** Every drawn index is a valid position in an alphabet of `n` symbols. */
  predicate DrawsBelow(draws: seq<nat>, n: int)
  {
    forall k :: 0 <= k < |draws| ==> draws[k] < n
  }

  /** The source's test for a drawn symbol: not yet in the set of used characters. */
  function IsUniqueCharacter(c: char, usedCharacters: set<char>): bool
  {
    c !in usedCharacters
  }

  /** The rejection-sampling loop as a function: consume draws while the code is
      shorter than `codeLength`, appending each drawn symbol not yet in the code. */
  function Collect(symbols: seq<char>, draws: seq<nat>, code: string, codeLength: int): string
    requires DrawsBelow(draws, |symbols|)
    decreases |draws|
  {
    if |code| >= codeLength || draws == [] then code
    else
      var c := symbols[draws[0]];
      Collect(symbols, draws[1..], if c in code then code else code + [c], codeLength)
  }

  /** What one call of the random-code generator returns, given the indices the
      random source yields; `None` when they run out before the code is complete. */
  function RandomCode(codeLength: int, numberOfSymbols: int, draws: seq<nat>): Option<string>
    requires numberOfSymbols <= MaxSymbols
    requires DrawsBelow(draws, numberOfSymbols)
  {
    var code := Collect(Alphabet(numberOfSymbols), draws, [], codeLength);
    if |code| >= codeLength then Some(code) else None
  }

  /** Collecting keeps the code free of repeats, within the alphabet, and no
      longer than requested. */
  lemma {:induction false} CollectProperties(symbols: seq<char>, draws: seq<nat>, code: string, codeLength: int)
    requires DrawsBelow(draws, |symbols|)
    requires Distinct(code)
    requires forall c :: c in code ==> c in symbols
    requires |code| <= if codeLength < 0 then 0 else codeLength
    ensures Distinct(Collect(symbols, draws, code, codeLength))
    ensures forall c :: c in Collect(symbols, draws, code, codeLength) ==> c in symbols
    ensures |Collect(symbols, draws, code, codeLength)| <= if codeLength < 0 then 0 else codeLength
    decreases |draws|
  {
    if |code| >= codeLength || draws == [] {
    } else {
      var c := symbols[draws[0]];
      var code' := if c in code then code else code + [c];
      assert Distinct(code') by {
        forall i, j | 0 <= i < j < |code'| ensures code'[i] != code'[j] {
          if j == |code| { assert code'[i] == code[i]; }
        }
      }
      CollectProperties(symbols, draws[1..], code', codeLength);
    }
  }

  /** A completed random code has exactly the requested length, no repeated
      symbol, and only symbols of the alphabet. */
  lemma RandomCodeCorrect(codeLength: int, numberOfSymbols: int, draws: seq<nat>)
    requires numberOfSymbols <= MaxSymbols
    requires DrawsBelow(draws, numberOfSymbols)
    ensures RandomCode(codeLength, numberOfSymbols, draws).Some? ==>
      var code := RandomCode(codeLength, numberOfSymbols, draws).value;
      |code| == (if codeLength < 0 then 0 else codeLength) &&
      Distinct(code) &&
      forall c :: c in code ==> c in Alphabet(numberOfSymbols)
  {
    CollectProperties(Alphabet(numberOfSymbols), draws, [], codeLength);
  }

  /** The indices `from`, `from + 1`, ..., `to - 1`. */
  function Ascending(from: nat, to: nat): (r: seq<nat>)
    ensures |r| == if from < to then to - from else 0
    ensures forall k :: 0 <= k < |r| ==> r[k] == from + k
    decreases if from < to then to - from else 0
  {
    if from >= to then [] else [from] + Ascending(from + 1, to)
  }

  lemma {:induction false} CollectAscending(numberOfSymbols: int, j: nat, codeLength: nat)
    requires codeLength <= numberOfSymbols <= MaxSymbols
    requires j <= codeLength
    ensures DrawsBelow(Ascending(j, codeLength), |Alphabet(numberOfSymbols)|)
    ensures Collect(Alphabet(numberOfSymbols), Ascending(j, codeLength), Alphabet(j), codeLength)
            == Alphabet(codeLength)
    decreases codeLength - j
  {
    if j < codeLength {
      var c := Alphabet(numberOfSymbols)[j];
      assert c == SymbolAt(j);
      AlphabetWellFormed(j + 1);
      assert Alphabet(j + 1) == Alphabet(j) + [c];
      assert c !in Alphabet(j) by {
        var a := Alphabet(j + 1);
        assert a[j] == c;
        forall i | 0 <= i < j ensures Alphabet(j)[i] != c {
          assert Alphabet(j)[i] == a[i];
        }
      }
      assert Ascending(j, codeLength)[1..] == Ascending(j + 1, codeLength);
      CollectAscending(numberOfSymbols, j + 1, codeLength);
    } else {
      assert Ascending(j, codeLength) == [];
    }
  }

  /** A code can always be completed when the alphabet is large enough: drawing
      the indices 0, 1, ..., codeLength - 1 in order yields the first
      `codeLength` symbols. */
  lemma AscendingDrawsComplete(codeLength: nat, numberOfSymbols: int)
    requires codeLength <= numberOfSymbols <= MaxSymbols
    ensures DrawsBelow(Ascending(0, codeLength), numberOfSymbols)
    ensures RandomCode(codeLength, numberOfSymbols, Ascending(0, codeLength)) == Some(Alphabet(codeLength))
  {
    CollectAscending(numberOfSymbols, 0, codeLength);
  }

  /** Rejection sampling: draw a symbol, keep it when it is unused. The set of used
      characters is kept alongside the code and always equals its characters. */
  method GenerateRandomCode(codeLength: int, numberOfSymbols: int, draws: seq<nat>) returns (r: Option<string>)
    requires numberOfSymbols <= MaxSymbols
    requires DrawsBelow(draws, numberOfSymbols)
    ensures r == RandomCode(codeLength, numberOfSymbols, draws)
    ensures r.Some? ==> |r.value| == (if codeLength < 0 then 0 else codeLength)
    ensures r.Some? ==> Distinct(r.value)
    ensures r.Some? ==> forall c :: c in r.value ==> c in Alphabet(numberOfSymbols)
  {
    var symbols := GenerateSymbols(numberOfSymbols);
    var code: string := [];
    var usedCharacters: set<char> := {};
    var k := 0;
    while |code| < codeLength && k < |draws|
      invariant 0 <= k <= |draws|
      invariant usedCharacters == set c | c in code
      invariant Distinct(code)
      invariant forall c :: c in code ==> c in symbols
      invariant |code| <= if codeLength < 0 then 0 else codeLength
      invariant Collect(symbols, draws[k..], code, codeLength) == Collect(symbols, draws, [], codeLength)
    {
      var randomChar := symbols[draws[k]];
      assert draws[k..][1..] == draws[k + 1..];
      if IsUniqueCharacter(randomChar, usedCharacters) {
        assert forall i :: 0 <= i < |code| ==> code[i] != randomChar;
        code := code + [randomChar];
        usedCharacters := usedCharacters + {randomChar};
      }
      k := k + 1;
    }
    r := if |code| >= codeLength then Some(code) else None;
  }

  /** The source's validity test: a code is valid when no character repeats. */
  method NoRepeatingCharacters(code: string) returns (b: bool)
    ensures b <==> Distinct(code)
  {
    var i := 0;
    while i < |code|
      invariant 0 <= i <= |code|
      invariant forall p, q :: 0 <= p < i && p < q < |code| ==> code[p] != code[q]
    {
      var j := i + 1;
      while j < |code|
        invariant i + 1 <= j <= |code|
        invariant forall q :: i < q < j ==> code[i] != code[q]
      {
        if code[i] == code[j] {
          return false;
        }
        j := j + 1;
      }
      i := i + 1;
    }
    return true;
  }

  method IsValidCode(code: string) returns (b: bool)
    ensures b <==> Distinct(code)
  {
    b := NoRepeatingCharacters(code);
  }

  /** Every attempt's draws are valid indices into the alphabet. */
  predicate AttemptsBelow(attempts: seq<seq<nat>>, n: int)
  {
    forall a :: 0 <= a < |attempts| ==> DrawsBelow(attempts[a], n)
  }

  /** The retry loop as a function: take the first attempt whose code is valid;
      `None` when an attempt never completes or every attempt is invalid. */
  function ValidCode(codeLength: int, numberOfSymbols: int, attempts: seq<seq<nat>>): Option<string>
    requires numberOfSymbols <= MaxSymbols
    requires |attempts| > 0
    requires AttemptsBelow(attempts, numberOfSymbols)
    decreases |attempts|
  {
    var code := RandomCode(codeLength, numberOfSymbols, attempts[0]);
    if code.None? then None
    else if Distinct(code.value) then code
    else if |attempts| == 1 then None
    else ValidCode(codeLength, numberOfSymbols, attempts[1..])
  }

  /** The retry never happens: the first generated code is already valid. */
  lemma FirstAttemptIsValid(codeLength: int, numberOfSymbols: int, attempts: seq<seq<nat>>)
    requires numberOfSymbols <= MaxSymbols
    requires |attempts| > 0
    requires AttemptsBelow(attempts, numberOfSymbols)
    ensures ValidCode(codeLength, numberOfSymbols, attempts) == RandomCode(codeLength, numberOfSymbols, attempts[0])
  {
    RandomCodeCorrect(codeLength, numberOfSymbols, attempts[0]);
  }

  /** Generate a code, and generate again while it has a repeated character.
      `attempts[a]` holds the indices the random source yields during attempt `a`. */
  method GenerateValidCode(codeLength: int, numberOfSymbols: int, attempts: seq<seq<nat>>) returns (r: Option<string>)
    requires numberOfSymbols <= MaxSymbols
    requires |attempts| > 0
    requires AttemptsBelow(attempts, numberOfSymbols)
    ensures r == ValidCode(codeLength, numberOfSymbols, attempts)
    ensures r == RandomCode(codeLength, numberOfSymbols, attempts[0])
    ensures r.Some? ==> |r.value| == (if codeLength < 0 then 0 else codeLength)
    ensures r.Some? ==> Distinct(r.value)
    ensures r.Some? ==> forall c :: c in r.value ==> c in Alphabet(numberOfSymbols)
  {
    r := GenerateRandomCode(codeLength, numberOfSymbols, attempts[0]);
    var next := 1;
    while r.Some?
      invariant 1 <= next <= |attempts|
      invariant r == RandomCode(codeLength, numberOfSymbols, attempts[next - 1])
      invariant ValidCode(codeLength, numberOfSymbols, attempts[next - 1..]) == ValidCode(codeLength, numberOfSymbols, attempts)
      decreases |attempts| - next
    {
      var valid := IsValidCode(r.value);
      if valid {
        break;
      }
      if next == |attempts| {
        r := None;
        break;
      }
      assert attempts[next - 1..][1..] == attempts[next..];
      r := GenerateRandomCode(codeLength, numberOfSymbols, attempts[next]);
      next := next + 1;
    }
    FirstAttemptIsValid(codeLength, numberOfSymbols, attempts);
    RandomCodeCorrect(codeLength, numberOfSymbols, attempts[0]);
  }
}
