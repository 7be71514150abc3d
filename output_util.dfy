/** The banner printed once the secret code is ready: a fixed preamble, one
    asterisk per code symbol, and the range of symbols in use. The text is
    reproduced literally, including the closing parenthesis that follows
    " (0-9)" and is repeated by the final ")." */
module OutputUtil {

  import opened ValidationUtil

  const Preamble: string := "The secret code is prepared: "
  const DigitRange: string := " (0-9)"
  const Closing: string := ")."

  /** The stars that stand for the hidden code, one per symbol. */
  function GenerateAsterisks(length: nat): (r: string)
    ensures |r| == length
    ensures forall i :: 0 <= i < |r| ==> r[i] == '*'
  {
    if length == 0 then "" else GenerateAsterisks(length - 1) + "*"
  }

  /** ", a-" followed by the last letter of an alphabet of more than 11 symbols. */
  method GenerateAlphabetRange(numberOfSymbols: int) returns (alphabetRange: string)
    requires 11 < numberOfSymbols <= MaxSymbols
    ensures |alphabetRange| == 5
    ensures alphabetRange[..4] == ", a-"
    ensures 'b' <= alphabetRange[4] <= 'z'
    ensures alphabetRange[4] as int - 'a' as int == numberOfSymbols - 11
  {
    alphabetRange := "";
    alphabetRange := alphabetRange + ", a-";
    var lastChar := ('a' as int + numberOfSymbols - 11) as char;
    alphabetRange := alphabetRange + [lastChar];
  }

  /** Assembles the banner piece by piece. Its layout: the preamble, exactly
      `codeLength` asterisks, " (0-9)", then nothing (at most ten symbols), the
      single letter 'a' (eleven symbols) or ", a-" and the last letter (more than
      eleven), and finally ")." */
  method GenerateSymbolMessage(codeLength: nat, numberOfSymbols: int) returns (msg: string)
    requires numberOfSymbols <= MaxSymbols
    ensures |msg| == |Preamble| + codeLength + |DigitRange| +
                     (if numberOfSymbols <= 10 then 0 else if numberOfSymbols == 11 then 1 else 5) +
                     |Closing|
    ensures msg[..29] == "The secret code is prepared: "
    ensures forall i :: 29 <= i < 29 + codeLength ==> msg[i] == '*'
    ensures msg[29 + codeLength..35 + codeLength] == " (0-9)"
    ensures msg[|msg| - 2..] == ")."
    ensures numberOfSymbols <= 10 ==> |msg| == 37 + codeLength
    ensures numberOfSymbols == 11 ==> msg[35 + codeLength..|msg| - 2] == "a"
    ensures numberOfSymbols > 11 ==>
      msg[35 + codeLength..39 + codeLength] == ", a-" &&
      msg[39 + codeLength] as int - 'a' as int == numberOfSymbols - 11 &&
      |msg| == 42 + codeLength
    ensures numberOfSymbols == MaxSymbols ==> msg[39 + codeLength] == 'z'
  {
    var result := Preamble;
    result := result + GenerateAsterisks(codeLength);
    result := result + DigitRange;
    ghost var head := result;
    if numberOfSymbols > 10 {
      if numberOfSymbols == 11 {
        result := result + ['a'];
      } else {
        var alphabetRange := GenerateAlphabetRange(numberOfSymbols);
        result := result + alphabetRange;
      }
    }
    result := result + Closing;
    msg := result;
    assert msg[..|head|] == head;
  }
}
