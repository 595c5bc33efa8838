/** The create-coin dialog: the two field validators, the normalisation applied to every keystroke in the
    symbol field, the form-valid flag of the submit button, and the checks `handleSubmit` makes before it
    sends the request. */
module CoinForm {
  import opened Common
  import opened Text

  /** `COIN_COST`, which is also `MIN_BALANCE`. */
  const CoinCost: int := 1000

  /** `validateName`: the first failing check's message, or `""`. */
  function ValidateName(value: string): (msg: string)
    ensures msg == "" <==> !Blank(value) && 2 <= |value| <= 50
    ensures msg == "Name is required" <==> Blank(value)
    ensures msg == "Name must be at least 2 characters" <==> !Blank(value) && |value| < 2
    ensures msg == "Name must be less than 50 characters" <==> !Blank(value) && |value| > 50
  {
    if Trim(value) == [] then "Name is required"
    else if |value| < 2 then "Name must be at least 2 characters"
    else if |value| > 50 then "Name must be less than 50 characters"
    else ""
  }

  /** `/^[A-Za-z0-9]+$/`. */
  predicate AlnumOnly(s: string)
  {
    |s| > 0 && forall i :: 0 <= i < |s| ==> IsAsciiAlnum(s[i])
  }

  /** `/^[A-Z0-9]+$/`. */
  predicate UpperAlnumOnly(s: string)
  {
    |s| > 0 && forall i :: 0 <= i < |s| ==> IsUpperAlnum(s[i])
  }

  /** `validateSymbol`: the message of the first failing check, in the order required, too short, too
      long, not alphanumeric; `""` when all pass. */
  function ValidateSymbol(value: string): (msg: string)
    ensures msg == "Symbol is required" <==> Blank(value)
    ensures msg == "Symbol must be at least 3 characters" <==> !Blank(value) && |value| < 3
    ensures msg == "Symbol must be at most 6 characters" <==> !Blank(value) && |value| > 6
    ensures msg == "Symbol must be alphanumeric" <==> !Blank(value) && 3 <= |value| <= 6 && !AlnumOnly(value)
    ensures msg == "" <==> !Blank(value) && 3 <= |value| <= 6 && AlnumOnly(value)
  {
    if Trim(value) == [] then "Symbol is required"
    else if |value| < 3 then "Symbol must be at least 3 characters"
    else if |value| > 6 then "Symbol must be at most 6 characters"
    else if !AlnumOnly(value) then "Symbol must be alphanumeric"
    else ""
  }

  /** A symbol of ASCII letters and digits is never blank, so `validateSymbol` accepts it exactly when
      its length is 3 to 6. */
  lemma AlnumSymbolIsNotBlank(value: string)
    requires AlnumOnly(value)
    ensures !Blank(value)
    ensures ValidateSymbol(value) == "" <==> 3 <= |value| <= 6
  {
    assert !IsJsWhitespace(value[0]);
  }

  /** `handleSymbolChange`: upper-case, then drop every character outside `A-Z0-9`. */
  function NormaliseSymbol(s: string): (r: string)
    ensures forall i :: 0 <= i < |r| ==> IsUpperAlnum(r[i])
    ensures |r| <= |s|
  {
    Filter(Upper(s), IsUpperAlnum)
  }

  /** The normalised symbol keeps every ASCII letter and digit of the input, upper-cased and in order,
      and nothing else. */
  lemma NormaliseKeepsAlnum(s: string, c: char)
    ensures c in NormaliseSymbol(s) <==> exists i :: 0 <= i < |s| && IsAsciiAlnum(s[i]) && UpperChar(s[i]) == c
  {
    FilterMembers(Upper(s), IsUpperAlnum, c);
    if c in Upper(s) && IsUpperAlnum(c) {
      var i :| 0 <= i < |s| && Upper(s)[i] == c;
      assert IsAsciiAlnum(s[i]);
    }
    if i :| 0 <= i < |s| && IsAsciiAlnum(s[i]) && UpperChar(s[i]) == c {
      assert Upper(s)[i] == c;
    }
  }

  /** A symbol of `A-Z0-9` characters is left as it is, so normalising twice is normalising once. */
  lemma NormaliseFixesUpperAlnum(s: string)
    requires forall i :: 0 <= i < |s| ==> IsUpperAlnum(s[i])
    ensures NormaliseSymbol(s) == s
  {
    UpperIsUpperCase(s);
    FilterAll(s, IsUpperAlnum);
  }

  lemma NormaliseIdempotent(s: string)
    ensures NormaliseSymbol(NormaliseSymbol(s)) == NormaliseSymbol(s)
  {
    NormaliseFixesUpperAlnum(NormaliseSymbol(s));
  }

  /** `isFormValid`: a non-blank name and a symbol of 3 to 6 characters from `A-Z0-9`. */
  predicate IsFormValid(name: string, symbol: string)
  {
    Trim(name) != [] && 3 <= |symbol| <= 6 && UpperAlnumOnly(symbol)
  }

  /** Whatever is typed, a normalised symbol of length 3 to 6 passes `validateSymbol` and the symbol half
      of `isFormValid`. */
  lemma NormalisedSymbolPasses(typed: string)
    requires 3 <= |NormaliseSymbol(typed)| <= 6
    ensures ValidateSymbol(NormaliseSymbol(typed)) == ""
    ensures UpperAlnumOnly(NormaliseSymbol(typed))
  {
    var s := NormaliseSymbol(typed);
    assert AlnumOnly(s);
    AlnumSymbolIsNotBlank(s);
  }

  /** The form-valid flag and the submit-time validators agree on the symbol: a symbol the flag accepts
      passes `validateSymbol`, and an upper-case symbol that passes it makes the flag true together with
      any name `validateName` accepts. */
  lemma FormValidVersusValidators(name: string, symbol: string)
    ensures IsFormValid(name, symbol) ==> ValidateSymbol(symbol) == ""
    ensures ValidateName(name) == "" && ValidateSymbol(symbol) == "" && (forall i :: 0 <= i < |symbol| ==> IsUpperAlnum(symbol[i]))
      ==> IsFormValid(name, symbol)
  {
    if IsFormValid(name, symbol) {
      assert AlnumOnly(symbol);
      AlnumSymbolIsNotBlank(symbol);
    }
  }

  /** They disagree on the name: `isFormValid` skips the length bounds of `validateName`, so a one-letter
      name enables the submit button and is then refused on submission. */
  lemma FormValidSkipsNameLength()
    ensures IsFormValid("x", "ABC")
    ensures ValidateName("x") == "Name must be at least 2 characters"
  {
    assert !IsJsWhitespace("x"[0]);
    assert !Blank("x");
    assert forall i :: 0 <= i < |"ABC"| ==> IsUpperAlnum("ABC"[i]);
  }

  datatype SubmitStep = ShowErrors(nameError: string, symbolError: string) | NeedBalance | SubmitCoin(name: string, symbol: string)

  /** `handleSubmit`: stop and show both messages when a validator fails; stop when there is no user or
      the balance is below 1000; otherwise request the coin with the trimmed name and the symbol as shown. */
  function HandleSubmit(name: string, symbol: string, balance: Option<int>): (r: SubmitStep)
    ensures r.ShowErrors? <==> ValidateName(name) != "" || ValidateSymbol(symbol) != ""
    ensures r.ShowErrors? ==> r.nameError == ValidateName(name) && r.symbolError == ValidateSymbol(symbol)
    ensures r.NeedBalance? <==> !r.ShowErrors? && (balance.None? || balance.value < CoinCost)
    ensures r.SubmitCoin? ==> r.name == Trim(name) && r.symbol == symbol
  {
    var nameError := ValidateName(name);
    var symbolError := ValidateSymbol(symbol);
    if nameError != "" || symbolError != "" then ShowErrors(nameError, symbolError)
    else if balance.None? || balance.value < CoinCost then NeedBalance
    else SubmitCoin(Trim(name), symbol)
  }

  /** `hasEnoughBalance`. */
  predicate HasEnoughBalance(balance: Option<int>)
  {
    balance.Some? && balance.value >= CoinCost
  }

  /** A request leaves the dialog only after both validators passed and the balance check held. */
  lemma SubmitPassedChecks(name: string, symbol: string, balance: Option<int>)
    requires HandleSubmit(name, symbol, balance).SubmitCoin?
    ensures ValidateName(name) == "" && ValidateSymbol(symbol) == "" && HasEnoughBalance(balance)
    ensures HandleSubmit(name, symbol, balance) == SubmitCoin(Trim(name), symbol)
  {
  }

  /** A request leaves the dialog only with a balance of at least 1000 (which the backend never debits),
      a non-empty trimmed name without surrounding white space, and a valid symbol; so neither string is
      the empty value the backend rejects. */
  lemma SubmittedRequestIsWellFormed(name: string, symbol: string, balance: Option<int>)
    requires HandleSubmit(name, symbol, balance).SubmitCoin?
    ensures HasEnoughBalance(balance)
    ensures var r := HandleSubmit(name, symbol, balance);
      && r.name != [] && !IsJsWhitespace(r.name[0]) && !IsJsWhitespace(r.name[|r.name| - 1])
      && 3 <= |r.symbol| <= 6 && AlnumOnly(r.symbol)
  {
    SubmitPassedChecks(name, symbol, balance);
    var trimmed := Trim(name);
    assert trimmed != [];
  }
}
