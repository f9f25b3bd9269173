/**
  The password rule of the registration handler: the regular expression
  ^(?=.*[a-z])(?=.*[A-Z])(?=.*[$*&@#])[0-9a-zA-Z$*&@#]{8,}$
  evaluated as a single left-to-right scan of the password.
*/
module Password {

  const MinLength := 8

  predicate IsLower(c: char) { 'a' <= c <= 'z' }
  predicate IsUpper(c: char) { 'A' <= c <= 'Z' }
  predicate IsDigit(c: char) { '0' <= c <= '9' }
  predicate IsSymbol(c: char) { c == '$' || c == '*' || c == '&' || c == '@' || c == '#' }

  /** The character class [0-9a-zA-Z$*&@#]. */
  predicate IsAllowed(c: char) { IsDigit(c) || IsLower(c) || IsUpper(c) || IsSymbol(c) }

  /** What one pass over a string has seen so far. */
  datatype Seen = Seen(allAllowed: bool, lower: bool, upper: bool, symbol: bool)

  /** One pass over `s`, collecting the facts the three look-aheads and the class test need. */
  function Scan(s: string): (seen: Seen)
    ensures seen.allAllowed <==> forall i :: 0 <= i < |s| ==> IsAllowed(s[i])
    ensures seen.lower <==> exists i :: 0 <= i < |s| && IsLower(s[i])
    ensures seen.upper <==> exists i :: 0 <= i < |s| && IsUpper(s[i])
    ensures seen.symbol <==> exists i :: 0 <= i < |s| && IsSymbol(s[i])
  {
    if s == [] then Seen(true, false, false, false)
    else
      var rest := Scan(s[1..]);
      assert forall i :: 1 <= i < |s| ==> s[i] == s[1..][i - 1];
      Seen(IsAllowed(s[0]) && rest.allAllowed,
           IsLower(s[0]) || rest.lower,
           IsUpper(s[0]) || rest.upper,
           IsSymbol(s[0]) || rest.symbol)
  }

  /**
    `regexSenha.test(senha)`. The rule asks for a lower-case letter, an
    upper-case letter and a symbol; it does not ask for a digit.
  */
  function Accepts(senha: string): (ok: bool)
    ensures ok <==>
      && |senha| >= MinLength
      && (forall i :: 0 <= i < |senha| ==> IsAllowed(senha[i]))
      && (exists i :: 0 <= i < |senha| && IsLower(senha[i]))
      && (exists i :: 0 <= i < |senha| && IsUpper(senha[i]))
      && (exists i :: 0 <= i < |senha| && IsSymbol(senha[i]))
  {
    var seen := Scan(senha);
    |senha| >= MinLength && seen.allAllowed && seen.lower && seen.upper && seen.symbol
  }

  /** A password with no digit at all is accepted. */
  lemma DigitNotRequired()
    ensures Accepts("senhaF$rte")
  {
    var good := "senhaF$rte";
    assert forall i :: 0 <= i < |good| ==> IsAllowed(good[i]);
    assert IsLower(good[0]) && IsUpper(good[5]) && IsSymbol(good[6]);
  }

  /** A space is outside the character class, so it rejects an otherwise strong password. */
  lemma SpaceRejected()
    ensures !Accepts("senha F$rte")
  {
    var bad := "senha F$rte";
    assert !IsAllowed(bad[5]);
  }
}
