/** `getCurrencySymbol`: the display symbol of a currency code. */
module CurrencyUtils {
  import opened Values
  import opened Text

  const Rupee := "\U{20B9}"
  const Euro := "\U{20AC}"
  const Pound := "\U{00A3}"
  const Dollar := "$"

  /** The TypeError of calling `toUpperCase` on a value that is no string. */
  const NotAString := "currencyCode.toUpperCase is not a function"

  /** `getCurrencySymbol(code)`: '$' for a falsy code; for a string the symbol
      its upper-cased text names, '$' for every code other than INR, EUR and
      GBP; a truthy value that is no string has no `toUpperCase` and throws. */
  function GetCurrencySymbol(code: Value): (r: Result<string>)
    ensures !Truthy(code) ==> r == Ok(Dollar)
    ensures r.Err? <==> Truthy(code) && !code.Str?
    ensures r.Err? ==> r.msg == NotAString
    ensures r == Ok(Rupee) <==> code.Str? && ToUpper(code.s) == "INR"
    ensures r == Ok(Euro) <==> code.Str? && ToUpper(code.s) == "EUR"
    ensures r == Ok(Pound) <==> code.Str? && ToUpper(code.s) == "GBP"
    ensures r.Ok? ==> r.value in {Rupee, Euro, Pound, Dollar}
  {
    if !Truthy(code) then Ok(Dollar)
    else if !code.Str? then Err(NotAString)
    else
      var u := ToUpper(code.s);
      if u == "INR" then Ok(Rupee)
      else if u == "EUR" then Ok(Euro)
      else if u == "GBP" then Ok(Pound)
      else Ok(Dollar)
  }

  lemma {:induction false} ToUpperIdempotent(s: string)
    ensures ToUpper(ToUpper(s)) == ToUpper(s)
  {
    var u := ToUpper(s);
    forall i | 0 <= i < |s| ensures ToUpper(u)[i] == u[i] {
      assert u[i] == ToUpperChar(s[i]);
    }
  }

  /** The lookup ignores case: a code and its upper-cased form have the same
      symbol. */
  lemma {:induction false} CaseInsensitive(s: string)
    ensures GetCurrencySymbol(Str(s)) == GetCurrencySymbol(Str(ToUpper(s)))
  {
    ToUpperIdempotent(s);
    assert |ToUpper(s)| == |s|;
  }

  /** USD, in any case, falls to the default '$', and so does every other code
      that upper-cases to none of INR, EUR and GBP. */
  lemma {:induction false} OtherCodesAreDollar(s: string)
    requires s != []
    requires ToUpper(s) != "INR" && ToUpper(s) != "EUR" && ToUpper(s) != "GBP"
    ensures GetCurrencySymbol(Str(s)) == Ok(Dollar)
  {
  }

  lemma {:induction false} LowerCaseCodes()
    ensures GetCurrencySymbol(Str("inr")) == Ok(Rupee)
    ensures GetCurrencySymbol(Str("Eur")) == Ok(Euro)
    ensures GetCurrencySymbol(Str("usd")) == Ok(Dollar)
  {
    assert ToUpper("inr") == "INR";
    assert ToUpper("Eur") == "EUR";
    assert ToUpper("usd") == "USD";
  }
}
