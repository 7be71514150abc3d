/** Range checks on the settings a player enters before a game: the length of
    the secret code and the size of the alphabet it is drawn from. The two
    thrown exceptions of the original become the failure cases of `Outcome`;
    the bounds read from the configuration file become a `Config` value. */
module ValidationUtil {

  /** The two configurable bounds on the code length. */
  datatype Config = Config(minPasswordLength: int, maxPasswordLength: int)

  /** The bounds used when the configuration source does not set them. */
  const DefaultMinPasswordLength: int := 1
  const DefaultMaxPasswordLength: int := 36
  const DefaultConfig: Config := Config(DefaultMinPasswordLength, DefaultMaxPasswordLength)

  /** Only 36 distinct symbols exist: ten digits and 26 lower-case letters. */
  const MaxSymbols: int := 36

  /** Why an alphabet size was refused. */
  datatype SymbolsProblem = LessThanPasswordLength | GreaterThanMaxSymbols

  /** The two exception kinds; an invalid length remembers what it was checked against. */
  datatype ValidationError =
    | InvalidPasswordLength(length: int, min: int, max: int)
    | InvalidNumberOfSymbols(problem: SymbolsProblem)

  datatype Outcome = Pass | Fail(error: ValidationError)

  /** True when the length lies within the configured bounds, both inclusive. */
  function IsValidPasswordLength(cfg: Config, passwordLength: int): (ok: bool)
    ensures ok <==> cfg.minPasswordLength <= passwordLength <= cfg.maxPasswordLength
  {
    passwordLength >= cfg.minPasswordLength && passwordLength <= cfg.maxPasswordLength
  }

  /** Fails exactly when `IsValidPasswordLength` refuses the length, reporting the
      length and both bounds; otherwise it has no effect. */
  function ValidatePasswordLength(cfg: Config, passwordLength: int): (o: Outcome)
    ensures o.Pass? <==> cfg.minPasswordLength <= passwordLength <= cfg.maxPasswordLength
    ensures o.Fail? ==>
      o.error == InvalidPasswordLength(passwordLength, cfg.minPasswordLength, cfg.maxPasswordLength)
  {
    if !IsValidPasswordLength(cfg, passwordLength) then
      Fail(InvalidPasswordLength(passwordLength, cfg.minPasswordLength, cfg.maxPasswordLength))
    else
      Pass
  }

  /** Refuses an alphabet smaller than the code (a code without repeats could not
      be formed) and one larger than the 36 defined symbols; the first check wins
      when both apply. */
  function ValidateNumberOfSymbols(numberOfSymbols: int, passwordLength: int): (o: Outcome)
    ensures o.Pass? <==> passwordLength <= numberOfSymbols <= MaxSymbols
    ensures numberOfSymbols < passwordLength ==> o == Fail(InvalidNumberOfSymbols(LessThanPasswordLength))
    ensures passwordLength <= numberOfSymbols && numberOfSymbols > MaxSymbols ==>
      o == Fail(InvalidNumberOfSymbols(GreaterThanMaxSymbols))
  {
    if numberOfSymbols < passwordLength then
      Fail(InvalidNumberOfSymbols(LessThanPasswordLength))
    else if numberOfSymbols > 36 then
      Fail(InvalidNumberOfSymbols(GreaterThanMaxSymbols))
    else
      Pass
  }

  /** The default bounds accept exactly the positive lengths for which some
      alphabet size passes the symbol check. */
  lemma {:induction false} DefaultLengthsAreCodeLengths(n: int)
    ensures IsValidPasswordLength(DefaultConfig, n) <==> 1 <= n && exists s :: ValidateNumberOfSymbols(s, n).Pass?
  {
    if IsValidPasswordLength(DefaultConfig, n) {
      assert ValidateNumberOfSymbols(MaxSymbols, n).Pass?;
    }
  }

  /** With the default bounds, 1 and 36 are the smallest and largest accepted lengths. */
  lemma DefaultLengthBoundaries()
    ensures ValidatePasswordLength(DefaultConfig, 1).Pass?
    ensures ValidatePasswordLength(DefaultConfig, 36).Pass?
    ensures ValidatePasswordLength(DefaultConfig, 0) == Fail(InvalidPasswordLength(0, 1, 36))
    ensures ValidatePasswordLength(DefaultConfig, 37) == Fail(InvalidPasswordLength(37, 1, 36))
  {
  }

  /** Settings that pass both checks, whatever the configured length bounds, give a
      code length no larger than the alphabet, and an alphabet of at most 36 symbols;
      under the default bounds the length is also at least 1. */
  lemma ValidatedSettings(cfg: Config, codeLength: int, numberOfSymbols: int)
    requires ValidatePasswordLength(cfg, codeLength).Pass?
    requires ValidateNumberOfSymbols(numberOfSymbols, codeLength).Pass?
    ensures cfg.minPasswordLength <= codeLength <= numberOfSymbols <= MaxSymbols
    ensures cfg == DefaultConfig ==> 1 <= codeLength
  {
  }
}
