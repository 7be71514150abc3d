# Bulls and Cows: a verified model of the game's core

This project models the logic of a console Bulls and Cows game. A secret code
of distinct symbols is drawn from a base-36 alphabet (digits, then lower-case
letters). The player guesses until one guess scores as many bulls as the code
is long. Four pieces are modelled, one Dafny module each:

- `ValidationUtil` (`validation_util.dfy`): the range checks on the code length
  and the alphabet size. The thrown exceptions become an `Outcome` value. The
  configured length bounds become a `Config` record; `DefaultConfig` holds the
  defaults 1 and 36.
- `CodeGenerator` (`code_generator.dfy`): the alphabet, rejection sampling of a
  code with a set of used characters, the repetition check, and the retry loop
  around them. The random source is an oracle: the sequence of indices that
  `nextInt` yields, each below the alphabet size. Each imperative routine is a
  method proved against a function (`Alphabet`, `RandomCode`, `ValidCode`). The
  lemmas show that a finished code has the requested length, has no repeated
  symbol and uses only alphabet symbols. It follows that the retry loop never
  runs a second attempt (`FirstAttemptIsValid`).
- `OutputUtil` (`output_util.dfy`): the banner printed once the code is ready.
  It is reproduced literally, including the `)` after `" (0-9)"` that the final
  `")."` repeats.
- `Game` (`game.dfy`): scoring and the session. `Bulls` and `Cows` are recursive
  counting functions. `CalculateBulls` and `CalculateCows` are the source's
  loops, proved equal to them. Lemmas tie the counts to independent definitions:
  the set of agreeing positions, and the set of (secret position, different
  guess position) pairs holding the same character. Cows are counted with
  multiplicity, as the source's double loop does, so bulls plus cows can exceed
  the code length (`ScoreExamples`). The class `Game` holds the session's
  fields, setters and the turn loop `PlayGame`. The guesses are passed in as a
  sequence, and the grade of each turn is returned.

## Model

| member | source | states |
|---|---|---|
| `ValidationUtil.DefaultLengthsAreCodeLengths` | src/util/ValidationUtil.java:18-22 | under the default bounds, `IsValidPasswordLength` accepts exactly the positive lengths for which some alphabet size passes the symbol check |
| `ValidationUtil.ValidatePasswordLength` | src/util/ValidationUtil.java:30-37 | passes exactly when the length is within the bounds; otherwise fails with an invalid-length error carrying the length and both bounds |
| `ValidationUtil.ValidateNumberOfSymbols` | src/util/ValidationUtil.java:46-56 | passes exactly when length <= symbols <= 36; fewer symbols than the length reports "less than password length", and that error wins when both checks fail; more than 36 otherwise reports "greater than 36" |
| `ValidationUtil.DefaultLengthBoundaries` | src/util/ConfigUtil.java:16-17 | under the default bounds 1 and 36, lengths 1 and 36 pass and 0 and 37 fail |
| `ValidationUtil.ValidatedSettings` | src/util/ValidationUtil.java:30-56 | settings that pass both checks satisfy min <= length <= symbols <= 36 |
| `CodeGenerator.SymbolAt` | src/util/CodeGenerator.java:69-73 | symbol i is the digit '0'+i for i < 10 and the letter 'a'+(i-10) otherwise |
| `CodeGenerator.Alphabet` | src/util/CodeGenerator.java:66-76 | the alphabet of n symbols has length n (0 when n is negative), and element i is symbol i |
| `CodeGenerator.AlphabetWellFormed` | src/util/CodeGenerator.java:68-74 | the symbols of an alphabet of at most 36 are pairwise distinct and each is a digit or a lower-case letter |
| `CodeGenerator.GenerateSymbols` | src/util/CodeGenerator.java:66-76 | the list the loop builds is the alphabet: length n, element i is '0'+i below 10 and 'a'+i-10 from 10 on |
| `CodeGenerator.CollectProperties` | src/util/CodeGenerator.java:40-46 | each step of rejection sampling keeps the code free of repeats, within the alphabet, and no longer than requested |
| `CodeGenerator.RandomCodeCorrect` | src/util/CodeGenerator.java:33-48 | a completed random code has exactly the requested length, pairwise distinct symbols, all from the alphabet |
| `CodeGenerator.AscendingDrawsComplete` | src/util/CodeGenerator.java:33-48 | when length <= symbols <= 36 the sampling can complete: drawing 0, 1, ..., length-1 yields the first `length` symbols |
| `CodeGenerator.GenerateRandomCode` | src/util/CodeGenerator.java:33-48 | the loop keeps its used-character set equal to the code's characters, so the test `IsUniqueCharacter` (src/util/CodeGenerator.java:96-98) accepts a drawn symbol exactly when it is not yet in the code; each draw picks the alphabet symbol at that index (src/util/CodeGenerator.java:85-87); the result is the specified random code, and a completed code has the requested length, no repeats, only alphabet symbols |
| `CodeGenerator.NoRepeatingCharacters` | src/util/CodeGenerator.java:106-115 | returns true exactly when s[i] != s[j] for all i < j < \|s\| |
| `CodeGenerator.IsValidCode` | src/util/CodeGenerator.java:56-58 | a code is valid exactly when no character repeats |
| `CodeGenerator.FirstAttemptIsValid` | src/util/CodeGenerator.java:18-24 | the retry loop returns the first attempt's code: that code is always valid, so no second attempt is made |
| `CodeGenerator.GenerateValidCode` | src/util/CodeGenerator.java:18-24 | the retry loop returns the first attempt's code, which has the requested length, no repeats and only alphabet symbols |
| `OutputUtil.GenerateAsterisks` | src/util/OutputUtil.java:39-41 | exactly `length` characters, each '*' |
| `OutputUtil.GenerateAlphabetRange` | src/util/OutputUtil.java:49-55 | ", a-" followed by the letter 'a' + symbols - 11 (between 'b' and 'z') |
| `OutputUtil.GenerateSymbolMessage` | src/util/OutputUtil.java:16-31 | the banner is the preamble, exactly codeLength asterisks, " (0-9)", then nothing for at most 10 symbols, "a" for 11, ", a-" and the last letter for more ('z' for 36), and ")."; its length is 29 + codeLength + 6 + (0, 1 or 5) + 2 |
| `Game.Bulls` | src/game/Game.java:135-143 | the bull count never exceeds the length of the secret or of the guess |
| `Game.BullsCountsMatchPositions` | src/game/Game.java:135-143 | bulls equal the number of positions i below both lengths where secret[i] == guess[i] |
| `Game.CowsCountsPairs` | src/game/Game.java:152-162 | cows equal the number of pairs (i, j), i a secret position, j a guess position, i != j, secret[i] == guess[j], with multiplicity |
| `Game.EmptyGuess` | src/game/Game.java:135-162 | an empty guess scores 0 bulls and 0 cows |
| `Game.SelfScore` | src/game/Game.java:135-162 | a secret without repeats scored against itself gives bulls = its length and 0 cows |
| `Game.ScoreBound` | src/game/Game.java:135-162 | against a secret without repeats, bulls plus cows never exceed the guess length |
| `Game.AllBulls` | src/game/Game.java:117-124 | bulls reach the secret's length exactly when the guess begins with the whole secret |
| `Game.ScoreExamples` | src/game/Game.java:135-162 | "123"/"321" scores 1 bull and 2 cows; "123"/"1" scores 1 and 0; "12"/"11" scores 1 and 1; "12"/"122" scores 2 and 1 |
| `Game.PrintResult` | src/game/Game.java:170-180 | the grade is None iff no bulls and no cows, bulls-only iff bulls > 0 and no cows, cows-only iff cows > 0 and no bulls, both iff both are positive; the counts shown are kept |
| `Game.Game.constructor` | src/game/Game.java:18-24 | a new session has code length 0, 0 symbols and an empty secret |
| `Game.Game.SetCodeLength` | src/game/Game.java:35-37 | sets the code length; the other fields are unchanged |
| `Game.Game.SetNumberOfSymbols` | src/game/Game.java:43-45 | sets the number of symbols; the other fields are unchanged |
| `Game.Game.SetSecretCode` | src/game/Game.java:51-53 | sets the secret code; the other fields are unchanged |
| `Game.Game.CalculateBulls` | src/game/Game.java:135-143 | the loop returns `Bulls` of its inputs, at most either length, and never reads past the guess |
| `Game.Game.CalculateCows` | src/game/Game.java:152-162 | the double loop returns `Cows`, the number of matching pairs at different positions |
| `Game.Game.PlayGame` | src/game/Game.java:111-126 | the loop stops on the first guess whose bulls reach the code length, or when the guesses run out; every earlier guess scored fewer; each turn's grade is the grade of its score; when the secret has the code length, the winning guess begins with the secret |
| `Game.ValidatedSettingsAdmitCode` | src/game/Game.java:59-65 | settings that pass both validators, under any configured bounds, always admit a completed secret code; a length of zero or less completes at once with the empty code |
| `Game.GeneratedSecretWinsWhenGuessed` | src/game/Game.java:111-126 | when the configured minimum length is at least 1 (as the default is), a generated secret, guessed exactly, scores codeLength bulls and 0 cows, a bulls-only grade that ends the game |

## Left out

- Console input (`src/input/InputHandler.java`): prompts, reading integers with re-prompting on bad input, and reading guesses.
- Game.Game.PlayGame: takes the guesses as a finite sequence and stops when it runs out. At the end of input the source's `scanner.next()` throws `NoSuchElementException` instead.
- `Game.start`, `promptCodeLength` and `promptNumberOfSymbols`: console retry loops around the two validators. Only the validators and what accepted settings guarantee are modelled.
- Printing: the "Turn n" lines, the grade text and the congratulation line. `PrintResult` returns the grade instead of printing it.
- The getters of `Game`: the model reads the fields directly.
- `ConfigUtil`: loading the properties file and `Integer.parseInt`. The two bounds are a `Config` parameter, and `DefaultConfig` holds the defaults.
- Exception message text. The two exception classes become the constructors of `ValidationError`.
- `BullsCowsGame.main`: the entry point.
- `java.util.Random`: replaced by a sequence of drawn indices. Probability is not modelled. Nor is the fact that rejection sampling eventually ends: `None` stands for a random source that ran out before the code was complete, so the code properties are partial correctness. `GenerateValidCode` likewise takes a finite sequence of attempts.
- `GenerateRandomCode`: `nextInt(0)` throws when the alphabet is empty and the code length is positive. In the model no index is valid then, so the draws are empty and the result is `None`.
- CodeGenerator.GenerateSymbols, CodeGenerator.Alphabet and CodeGenerator.SymbolAt require at most 36 symbols. Beyond 36 the source yields the characters after 'z': punctuation up to index 39, DEL at index 40, then non-ASCII code points, and past 65535 its 16-bit `char` wraps. Every caller has passed `validateNumberOfSymbols`, which bounds the count by 36.
- CodeGenerator.GenerateRandomCode, CodeGenerator.RandomCode, CodeGenerator.GenerateValidCode and CodeGenerator.ValidCode inherit that bound of at most 36 symbols, for the same reason.
- OutputUtil.GenerateSymbolMessage and OutputUtil.GenerateAlphabetRange require at most 36 symbols, for the same reason.
- OutputUtil.GenerateAsterisks takes a non-negative length, because `String.repeat` throws on a negative count; OutputUtil.GenerateSymbolMessage takes a non-negative code length for the same reason.
- Game.Game.CalculateBulls, Game.Game.CalculateCows, Game.Bulls and Game.Cows work on Dafny strings, which hold Unicode scalar values. The source's `charAt` reads UTF-16 code units, so a guess with a character outside the Basic Multilingual Plane is one element here and two in the source, and scores differently.
- `Game.Game.constructor`: the source's secret code starts as `null`. The model starts it as the empty string.
- Game.Game.CalculateCows: counts with unbounded integers, not Java's 32-bit `int`. A guess read from the console has no length bound. For a secret without repeats, `ScoreBound` shows that bulls plus cows never exceed the guess length, so the source's counters cannot overflow. For a secret with repeats, the count can exceed 2^31 - 1, and Java's wrapped `int` would then differ from the model's count.
