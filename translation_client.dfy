/** `translate_chunk_with_token_count`: one batch goes to the chat completion
    service; the reply is stripped of surrounding whitespace, every `"""` is
    removed from it, and its tokens are counted. The service call itself (and
    the prompt around the batch) is an oracle that may fail. */
module TranslationClient {
  import opened Base
  import opened Text
  import opened Tokens

  /** The completion service: batch text, model name and target language to
      the raw reply, or `None` when the request raises. */
  type Api = (string, string, Option<string>) -> Option<string>

  /** `response.strip()` followed by `.replace('"""', '')`. The reply keeps
      every character that is not a double quote of the stripped text, and
      holds no `"""` any more. */
  function PostProcess(raw: string): (r: string)
    ensures !HasTriple(r)
    ensures NonQuotes(r) == NonQuotes(Strip(raw))
    ensures |r| <= |Strip(raw)|
  {
    var stripped := Strip(raw);
    RemoveTripleNoTriple(stripped);
    RemoveTripleKeepsText(stripped);
    RemoveTripleShorter(stripped);
    RemoveTripleQuotes(stripped)
  }

  /** Removing quotes never lengthens a text. */
  lemma {:induction false} RemoveTripleShorter(s: string)
    ensures |RemoveTripleQuotes(s)| <= |s|
    decreases |s|
  {
    if |s| > 0 {
      if TripleAt(s, 0) {
        RemoveTripleShorter(s[3..]);
      } else {
        RemoveTripleShorter(s[1..]);
      }
    }
  }

  /** A reply without `"""` and without surrounding whitespace comes through
      unchanged. */
  lemma PostProcessClean(raw: string)
    requires !HasTriple(raw)
    requires raw == [] || (!IsSpace(raw[0]) && !IsSpace(raw[|raw| - 1]))
    ensures PostProcess(raw) == raw
  {
    var n := LeadingSpaces(raw);
    assert n == 0;
    var t := raw[n..];
    assert t == raw;
    assert TrailingSpaces(t) == 0;
    assert Strip(raw) == t[..|t|] == raw;
    RemoveTripleIdentity(raw);
    assert PostProcess(raw) == RemoveTripleQuotes(Strip(raw));
  }

  /** Whitespace is stripped before the quotes are removed, so whitespace the
      quotes enclosed survives: the reply `""" Hi """` becomes ` Hi `. */
  lemma PostProcessKeepsInnerSpace()
    ensures PostProcess("\"\"\" Hi \"\"\"") == " Hi "
  {
    var raw := "\"\"\" Hi \"\"\"";
    QuotedHasNoOuterSpace(raw);
    RemoveQuotesAround(raw);
  }

  /** The quoted reply starts and ends with a quote, so stripping keeps it. */
  lemma QuotedHasNoOuterSpace(raw: string)
    requires raw == "\"\"\" Hi \"\"\""
    ensures Strip(raw) == raw
  {
    assert LeadingSpaces(raw) == 0;
    assert TrailingSpaces(raw) == 0;
  }

  /** Removing the quotes of the quoted reply leaves the text between them. */
  lemma RemoveQuotesAround(raw: string)
    requires raw == "\"\"\" Hi \"\"\""
    ensures RemoveTripleQuotes(raw) == " Hi "
  {
    var tail := " Hi \"\"\"";
    assert raw[3..] == tail;
    assert tail[1..] == "Hi \"\"\"";
    assert tail[1..][1..] == "i \"\"\"";
    assert tail[1..][1..][1..] == " \"\"\"";
    assert tail[1..][1..][1..][1..] == "\"\"\"";
    assert RemoveTripleQuotes("\"\"\"") == "";
  }

  /** `translate_chunk_with_token_count(chunk, model, dest_language)`: the
      post-processed reply and its token count, or `None` when the service
      call fails. */
  function TranslateChunk(tok: Tokenizer, api: Api, chunk: string, model: string, lang: Option<string>): (r: Option<(string, nat)>)
    ensures r.Some? <==> api(chunk, model, lang).Some?
    ensures r.Some? ==> r.value.0 == PostProcess(api(chunk, model, lang).value) && !HasTriple(r.value.0)
    ensures r.Some? ==> r.value.1 == Count(tok, r.value.0)
  {
    match api(chunk, model, lang)
    case None => None
    case Some(raw) =>
      var text := PostProcess(raw);
      Some((text, Count(tok, text)))
  }
}
