/** The postal-code (CEP) lookup of src/utils/cep.ts and the older variant in
    src/App.tsx. The ViaCEP request is a parameter of the model: `fetch` maps
    the URL requested to what awaiting the response and its JSON gave. */
module Cep {
  import opened Records
  import opened Text

  /** The fields of a ViaCEP reply; `erro` is the not-found flag (absent
      counts as false). */
  datatype ViaCepResponse = ViaCepResponse(
    cep: string,
    logradouro: string,
    complemento: string,
    bairro: string,
    localidade: string,
    uf: string,
    erro: bool)

  /** A reply parsed as JSON, or a thrown error (network failure, malformed
      body). */
  datatype FetchReply = Json(body: ViaCepResponse) | Thrown

  const ViaCepPrefix := "https://viacep.com.br/ws/"

  /** The ViaCEP address of a code: the service prefix, the code, then
      `/json/`. */
  function CepUrl(code: string): (r: string)
    ensures |r| == |ViaCepPrefix| + |code| + 6
    ensures ViaCepPrefix <= r && r[|r| - 6..] == "/json/"
    ensures r[|ViaCepPrefix|..|r| - 6] == code
  {
    ViaCepPrefix + code + "/json/"
  }

  /** Different codes are requested at different addresses. */
  lemma CepUrlInjective(a: string, b: string)
    requires CepUrl(a) == CepUrl(b)
    ensures a == b
  {
    assert a == CepUrl(a)[|ViaCepPrefix|..|CepUrl(a)| - 6];
  }

  /** The `try { ... } catch { return null }` part: not-found and any thrown
      error both become null, and a found reply is returned as it is. */
  function FromReply(reply: FetchReply): (r: Option<ViaCepResponse>)
    ensures r.Some? <==> reply.Json? && !reply.body.erro
    ensures r.Some? ==> r.value == reply.body
  {
    match reply
    case Thrown => None
    case Json(body) => if body.erro then None else Some(body)
  }

  /** `lookupCep`: keeps the digits of the input; unless there are exactly
      eight of them it answers null without a request; otherwise it requests
      the URL of the normalised code and maps the reply with `FromReply`. */
  function LookupCep(raw: string, fetch: string -> FetchReply): (r: Option<ViaCepResponse>)
    ensures |Digits(raw)| != 8 ==> r.None?
    ensures |Digits(raw)| == 8 ==> r == FromReply(fetch(CepUrl(Digits(raw))))
  {
    var cep := Digits(raw);
    if |cep| == 0 || |cep| != 8 then None
    else FromReply(fetch(CepUrl(cep)))
  }

  /** No request happens for a code that is not eight digits: the answer is
      the same whatever the service would have said. */
  lemma GatedCodesMakeNoRequest(raw: string, f: string -> FetchReply, g: string -> FetchReply)
    requires |Digits(raw)| != 8
    ensures LookupCep(raw, f) == LookupCep(raw, g) == None
  {
  }

  /** The only URL consulted is the one for the digits of the input: two
      services that agree on it give the same answer, and inputs that differ
      only in punctuation get the same answer. */
  lemma OnlyNormalisedCodeIsRequested(raw: string, raw': string, f: string -> FetchReply, g: string -> FetchReply)
    requires f(CepUrl(Digits(raw))) == g(CepUrl(Digits(raw)))
    requires Digits(raw) == Digits(raw')
    ensures LookupCep(raw, f) == LookupCep(raw', g)
  {
  }

  /** A code in the usual `NNNNN-NNN` form is looked up as its eight digits
      run together. */
  lemma HyphenatedCodeIsNormalised(a: string, b: string, f: string -> FetchReply)
    requires AllDigits(a) && |a| == 5 && AllDigits(b) && |b| == 3
    ensures LookupCep(a + "-" + b, f) == FromReply(f(CepUrl(a + b)))
  {
    assert a + "-" + b == a + ("-" + b);
    DigitsAppend(a, "-" + b);
    DigitsAppend("-", b);
    DigitsOfNonDigits("-");
    DigitsOfDigits(a);
    DigitsOfDigits(b);
    assert Digits(a + "-" + b) == a + b;
  }

  /** The variant in src/App.tsx: it only refuses an empty digit string and
      requests any other, whatever its length. */
  function LegacyLookupCep(raw: string, fetch: string -> FetchReply): (r: Option<ViaCepResponse>)
    ensures Digits(raw) == [] ==> r.None?
    ensures Digits(raw) != [] ==> r == FromReply(fetch(CepUrl(Digits(raw))))
  {
    var cep := Digits(raw);
    if cep == [] then None
    else FromReply(fetch(CepUrl(cep)))
  }

  /** On eight-digit codes the two variants agree; they differ only in that
      the older one also requests codes of other lengths. */
  lemma LookupVariantsAgreeOnEightDigits(raw: string, fetch: string -> FetchReply)
    requires |Digits(raw)| == 8
    ensures LookupCep(raw, fetch) == LegacyLookupCep(raw, fetch)
  {
  }
}
