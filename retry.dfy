/**
 * The bounded retry loops around the language model: `while ( $attempts++ < 2 )`
 * dispatches the prompt at most twice. The HTTP call and the decoding of
 * its body are an oracle: attempt n (0 or 1) yields `reply(n)`; the JSON
 * decoding of the cleansed content is `decode`, which yields a list; its
 * empty result stands for `null` and `[]`. Decodings to a JSON scalar are
 * not represented.
 */
module Retry {
  import opened Wrappers
  import opened PhpStr

  /** What one dispatch yields. */
  datatype Reply =
    | Thrown(message: string)          // an exception raised around the call
    | TransportError(message: string)  // `is_wp_error( $inferred )`
    | Body(content: Option<string>, error: Option<string>)
      // `choices[0].message.content` and `error` of the decoded body, when set

  /** parse_prompt_for_fields' answer: the decoded fields, or `{status: error, message}`. */
  datatype Outcome<T> = Fields(fields: seq<T>) | Error(message: string)

  const ErrorPrefix: string := "Unable to process prompt: "

  /** Trim, then drop the two-character sequences `\n` and `\r` (single-quoted PHP literals). */
  function StripEscapes(content: string): string
  {
    StrReplace("\\r", "", StrReplace("\\n", "", Trim(content)))
  }

  /** parse_prompt_for_fields also turns `\"` into `"`. */
  function CleanseFields(content: string): string
  {
    StrReplace("\\\"", "\"", StripEscapes(content))
  }

  // ---------------------------------------------------------------------
  // parse_prompt_for_fields
  // ---------------------------------------------------------------------

  /** How one attempt of the fields loop ends: stop with an outcome, or go on. */
  datatype Attempt<T> = Stop(outcome: Outcome<T>) | Retry

  function FieldsAttempt<T>(rep: Reply, decode: string -> seq<T>): (a: Attempt<T>)
    ensures a.Stop? && a.outcome.Fields? ==> |a.outcome.fields| > 0
    ensures a.Stop? && a.outcome.Error? ==> ErrorPrefix <= a.outcome.message
  {
    match rep
    case Thrown(m) => Stop(Error(ErrorPrefix + m))
    case TransportError(m) => Stop(Error(ErrorPrefix + m))
    case Body(content, error) =>
      if content.Some? then
        var d := decode(CleanseFields(content.value));
        if |d| > 0 then Stop(Fields(d)) else Retry
      else if error.Some? then Stop(Error(ErrorPrefix + error.value))
      else Retry
  }

  /** The response the loop leaves and the number of dispatches. */
  function FieldsLoop<T>(reply: nat -> Reply, decode: string -> seq<T>): (Outcome<T>, nat)
  {
    match FieldsAttempt(reply(0), decode)
    case Stop(o) => (o, 1)
    case Retry =>
      match FieldsAttempt(reply(1), decode)
      case Stop(o) => (o, 2)
      case Retry => (Fields([]), 2)
  }

  /** An empty response is replaced by the error naming the original prompt. */
  function FieldsResult<T>(originalPrompt: string, reply: nat -> Reply, decode: string -> seq<T>): Outcome<T>
  {
    var (response, _) := FieldsLoop(reply, decode);
    if response.Fields? && |response.fields| == 0 then Error(ErrorPrefix + originalPrompt) else response
  }

  method ParsePromptForFields<T>(originalPrompt: string, reply: nat -> Reply, decode: string -> seq<T>)
    returns (r: Outcome<T>, calls: nat)
    ensures r == FieldsResult(originalPrompt, reply, decode)
    ensures calls == FieldsLoop(reply, decode).1
  {
    var attempts := 0;
    var response: Outcome<T> := Fields([]);
    calls := 0;
    while attempts < 2
      invariant calls <= attempts <= 2
      invariant calls == 0 ==> attempts == 0 && response == Fields([])
      invariant calls == 1 ==> if FieldsAttempt(reply(0), decode).Stop?
                               then attempts == 2 && response == FieldsAttempt(reply(0), decode).outcome
                               else attempts == 1 && response == Fields([])
      invariant calls == 2 ==> attempts == 2 && FieldsAttempt(reply(0), decode).Retry?
                               && response == FieldsLoop(reply, decode).0
      decreases 2 - attempts
    {
      attempts := attempts + 1;
      var rep := reply(calls);
      calls := calls + 1;
      match rep {
        case Thrown(m) =>
          attempts := 2;
          response := Error(ErrorPrefix + m);
        case TransportError(m) =>
          attempts := 2;
          response := Error(ErrorPrefix + m);
        case Body(content, error) =>
          if content.Some? {
            var d := decode(CleanseFields(content.value));
            response := Fields(d);
            if |d| > 0 {
              attempts := 2;
            }
          } else if error.Some? {
            attempts := 2;
            response := Error(ErrorPrefix + error.value);
          }
      }
    }
    r := if response.Fields? && |response.fields| == 0 then Error(ErrorPrefix + originalPrompt) else response;
  }

  /** The model is asked once or twice, and a second time only after an attempt that asks to go on. */
  lemma FieldsCalls<T>(reply: nat -> Reply, decode: string -> seq<T>)
    ensures 1 <= FieldsLoop(reply, decode).1 <= 2
    ensures FieldsLoop(reply, decode).1 == 2 <==> FieldsAttempt(reply(0), decode).Retry?
  {
  }

  /** A first reply whose cleansed content decodes to something non-empty ends the loop with it. */
  lemma FieldsStopOnContent<T>(reply: nat -> Reply, decode: string -> seq<T>)
    requires reply(0).Body? && reply(0).content.Some?
    requires |decode(CleanseFields(reply(0).content.value))| > 0
    ensures FieldsLoop(reply, decode) == (Fields(decode(CleanseFields(reply(0).content.value))), 1)
    ensures FieldsResult("", reply, decode) == Fields(decode(CleanseFields(reply(0).content.value)))
  {
  }

  /**
   * A transport error, an exception or a body carrying `error` (without
   * content) ends the loop at once with an error naming it.
   */
  lemma FieldsStopOnError<T>(originalPrompt: string, reply: nat -> Reply, decode: string -> seq<T>)
    requires reply(0).Thrown? || reply(0).TransportError? || (reply(0).Body? && reply(0).content.None? && reply(0).error.Some?)
    ensures FieldsLoop(reply, decode).1 == 1
    ensures FieldsResult(originalPrompt, reply, decode)
            == Error(ErrorPrefix + if reply(0).Body? then reply(0).error.value else reply(0).message)
  {
  }

  /** Two replies that decode to nothing yield the fallback error with the original prompt. */
  lemma FieldsFallback<T>(originalPrompt: string, reply: nat -> Reply, decode: string -> seq<T>)
    requires FieldsAttempt(reply(0), decode).Retry? && FieldsAttempt(reply(1), decode).Retry?
    ensures FieldsLoop(reply, decode).1 == 2
    ensures FieldsResult(originalPrompt, reply, decode) == Error(ErrorPrefix + originalPrompt)
  {
  }

  /**
   * Whatever the replies, the result is either non-empty fields, decoded
   * from the cleansed content of the last attempt, or an error message
   * with the fixed prefix.
   */
  lemma FieldsResultShape<T>(originalPrompt: string, reply: nat -> Reply, decode: string -> seq<T>)
    ensures var r := FieldsResult(originalPrompt, reply, decode);
            var n := FieldsLoop(reply, decode).1;
            && (r.Fields? ==> |r.fields| > 0 && reply(n - 1).Body? && reply(n - 1).content.Some?
                              && r.fields == decode(CleanseFields(reply(n - 1).content.value)))
            && (r.Error? ==> ErrorPrefix <= r.message)
  {
    var o := FieldsAttempt(reply(0), decode);
    if o.Retry? {
      var o1 := FieldsAttempt(reply(1), decode);
    }
  }

  // ---------------------------------------------------------------------
  // handle_create_filter_request
  // ---------------------------------------------------------------------

  /**
   * The create-filter loop retries on every failure, exceptions included,
   * and returns the first non-empty decoding, or `[]`.
   */
  function CreateFilterDecoded<T>(rep: Reply, decode: string -> seq<T>): seq<T>
  {
    if rep.Body? && rep.content.Some? then decode(StripEscapes(rep.content.value)) else []
  }

  function CreateFilterLoop<T>(reply: nat -> Reply, decode: string -> seq<T>): (seq<T>, nat)
  {
    var d0 := CreateFilterDecoded(reply(0), decode);
    if |d0| > 0 then (d0, 1)
    else (CreateFilterDecoded(reply(1), decode), 2)
  }

  method HandleCreateFilterRequest<T>(reply: nat -> Reply, decode: string -> seq<T>)
    returns (response: seq<T>, calls: nat)
    ensures (response, calls) == CreateFilterLoop(reply, decode)
  {
    var attempts := 0;
    response := [];
    calls := 0;
    while attempts < 2
      invariant calls <= attempts <= 2
      invariant calls == 0 ==> attempts == 0 && response == []
      invariant calls == 1 ==> response == CreateFilterDecoded(reply(0), decode)
                               && (attempts == 2 <==> |response| > 0)
      invariant calls == 2 ==> attempts == 2 && (response, calls) == CreateFilterLoop(reply, decode)
      decreases 2 - attempts
    {
      attempts := attempts + 1;
      var rep := reply(calls);
      calls := calls + 1;
      var decoded: seq<T> := [];
      if rep.Body? && rep.content.Some? {
        decoded := decode(StripEscapes(rep.content.value));
        if |decoded| > 0 {
          attempts := 2;
        }
      }
      response := decoded;
    }
  }

  /**
   * At most two dispatches; the result is the first non-empty decoding
   * when there is one, and `[]` when both attempts fail.
   */
  lemma CreateFilterProps<T>(reply: nat -> Reply, decode: string -> seq<T>)
    ensures var (r, n) := CreateFilterLoop(reply, decode);
            && 1 <= n <= 2
            && (|CreateFilterDecoded(reply(0), decode)| > 0 ==> r == CreateFilterDecoded(reply(0), decode) && n == 1)
            && (|CreateFilterDecoded(reply(0), decode)| == 0 ==> r == CreateFilterDecoded(reply(1), decode) && n == 2)
            && (|r| == 0 <==> |CreateFilterDecoded(reply(0), decode)| == 0 && |CreateFilterDecoded(reply(1), decode)| == 0)
  {
  }

  /** Two failing attempts of any kind leave `[]`. */
  lemma CreateFilterEmpty<T>(reply: nat -> Reply, decode: string -> seq<T>)
    requires !(reply(0).Body? && reply(0).content.Some?) && !(reply(1).Body? && reply(1).content.Some?)
    ensures CreateFilterLoop(reply, decode) == ([], 2)
  {
  }
}
