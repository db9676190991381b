/**
 The vocabulary the word splitter is compiled with: the established abbreviations and the
 provider names in capitals.
 */
module Lexicon {
  import opened Identifier
  import opened Naming
  import opened Text

  const ABBREVIATIONS: seq<string> := [
    "ID", "URL", "URI", "HTTP", "HTTPS", "API", "SQL", "JSON", "UUID", "JWT", "TLS", "SSH", "CPU", "GPU", "IO",
    "OS", "DB", "UI", "UTC", "CSV", "XML", "IP", "DNS", "TCP", "WASM", "AST", "LLM", "SCC", "WS", "RPC"]

  const PROVIDERS: seq<string> := [
    "STRIPE", "PAYPAL", "GITHUB", "GITLAB", "OPENAI", "ANTHROPIC", "AWS", "AZURE", "SLACK", "TWILIO",
    "DISCORD", "FIREBASE", "CLOUDFLARE", "AUTH0", "OKTA", "DATADOG", "SENTRY", "GOOGLE", "MICROSOFT"]

  const SPLITTER_TOKENS: Vocabulary := set t | t in ABBREVIATIONS + PROVIDERS

  /** The longest token, CLOUDFLARE, has ten letters. */
  const MAX_ABBREVIATION_RUN_LENGTH := 10

  predicate Capitals(t: string) {
    2 <= |t| <= MAX_ABBREVIATION_RUN_LENGTH && AllOf(t, Upper)
  }

  lemma AbbreviationsAreCapitals(i: nat)
    requires i < |ABBREVIATIONS|
    ensures Capitals(ABBREVIATIONS[i])
  {}

  lemma ProvidersAreCapitals(i: nat)
    requires i < |PROVIDERS| && i != 13
    ensures Capitals(PROVIDERS[i])
  {}

  lemma Auth0Core()
    ensures PROVIDERS[13] == "AUTH0" && Core("AUTH0") == "AUTH"
  {
    CoreBeforeDigits("AUTH", "0");
    assert "AUTH" + "0" == "AUTH0";
  }

  lemma AuthIsNoToken()
    ensures "AUTH" !in SPLITTER_TOKENS
  {}

  /**
   Every token is at least two capitals, but for AUTH0, whose capitals are no token: the
   splitter can then never meet it, since a run of capitals holds no digit.
   */
  lemma SplitterTokensAreGood()
    ensures GoodVocabulary(SPLITTER_TOKENS)
    ensures forall t :: t in SPLITTER_TOKENS ==> |t| <= MAX_ABBREVIATION_RUN_LENGTH
  {
    var v := SPLITTER_TOKENS;
    Auth0Core();
    AuthIsNoToken();
    forall t | t in v
      ensures 2 <= |t| <= MAX_ABBREVIATION_RUN_LENGTH && (AllOf(t, Upper) || LooseCapitals(v, Core(t)))
    {
      if t in ABBREVIATIONS {
        var i :| 0 <= i < |ABBREVIATIONS| && ABBREVIATIONS[i] == t;
        AbbreviationsAreCapitals(i);
      } else {
        var i :| 0 <= i < |PROVIDERS| && PROVIDERS[i] == t;
        if i != 13 { ProvidersAreCapitals(i); }
      }
    }
  }

  lemma NamesHaveNoSpace(name: string)
    requires CanonicalName(name)
    ensures NoSpace(name)
  {
    forall i | 0 <= i < |name| ensures !IsSpace(name[i]) { assert Naming.IdentifierChar(name[i]); }
  }

  /** With the compiled vocabulary: display names tell canonical names apart, and phrases spell them. */
  lemma CompiledNames(a: string, b: string)
    requires CanonicalName(a) && CanonicalName(b)
    ensures DisplayName(SPLITTER_TOKENS, a) == DisplayName(SPLITTER_TOKENS, b) <==> a == b
    ensures Squeeze(Phrase(SPLITTER_TOKENS, a)) == ToLower(a)
    ensures NormalizedAlias(SPLITTER_TOKENS, a) == Phrase(SPLITTER_TOKENS, a)
  {
    SplitterTokensAreGood();
    NamesHaveNoSpace(a);
    NamesHaveNoSpace(b);
    DisplayNamesAreDistinct(SPLITTER_TOKENS, a, b);
    PhraseSpellsLoweredName(SPLITTER_TOKENS, a);
    AliasAgreesWithPhrase(SPLITTER_TOKENS, a);
  }
}
