/** What a prompt is made of: messages, quoted spans, tool steps, and the counter
    that prices their text. */
module Conversation {

  datatype Option<+T> = None | Some(value: T)
  {
    function GetOr(default: T): T {
      match this
      case Some(v) => v
      case None => default
    }
  }

  type TurnId = nat
  type JobId = nat

  datatype Role = System | User | Assistant

  datatype Message = Message(role: Role, content: string)

  /** Which counter produced a number. Two numbers are comparable only under one id. */
  datatype CounterId = Model(name: string) | Approximate

  /** A counter is its id and a total function on text; nothing else is assumed of it
      unless a lemma asks for `Additive`. */
  datatype TokenCounter = TokenCounter(id: CounterId, count: string -> nat)

  /** The exact equalities hold for counters that price a concatenation as the sum of
      its parts; separators may be free. */
  ghost predicate Additive(c: TokenCounter) {
    forall a: string, b: string :: c.count(a + b) == c.count(a) + c.count(b)
  }

  /** A span quoted into a turn: the same fragment only when path *and* bytes agree. */
  datatype Fragment = Fragment(path: string, text: string)

  datatype Verdict = Verdict(allowed: bool, rule: string)

  datatype ToolCall = ToolCall(name: string, arguments: string)

  datatype ToolOutcome = ToolOutcome(verdict: Verdict, output: string, error: Option<string>, truncated: bool)
  {
    /** How a result is written back into the conversation. */
    function Render(name: string): string {
      "[" + name + "] " + (match error case Some(e) => e case None => "ok")
      + (if output == "" then "" else "\n" + output)
      + (if truncated then "\n[" + name + "] output cut at " + Decimal(MAX_OUTPUT_BYTES) + " bytes" else "")
    }
  }

  const MAX_OUTPUT_BYTES: nat := 8 * 1024

  datatype GrantScope = GrantOnce | GrantSession

  /** An executed call with its result. `text` is the whole reply it was read from, and `index`
      its place among that reply's calls, counting from one. */
  datatype ToolStep = ToolStep(
    text: string, call: ToolCall, index: nat, outcome: ToolOutcome,
    asked: Option<bool>, grant: Option<GrantScope>)
  {
    function ResultText(): string {
      outcome.Render(call.name)
    }
  }

  /** The calls of each reply are numbered from one, reply after reply. */
  predicate InReplyOrder(steps: seq<ToolStep>) {
    forall k | 0 <= k < |steps| :: steps[k].index == 1 || (k > 0 && steps[k].index == steps[k - 1].index + 1)
  }

  datatype Turn = Turn(
    id: TurnId, prompt: string, answer: string, steps: seq<ToolStep>,
    code: seq<Fragment>, job: JobId, tokens: nat, countedBy: CounterId)

  function Digit(d: nat): char
    requires d < 10
  {
    "0123456789"[d]
  }

  /** A number as it is printed. */
  function Decimal(n: nat): (text: string)
    ensures text != ""
  {
    if n < 10 then [Digit(n)] else Decimal(n / 10) + [Digit(n % 10)]
  }

  /** What a list of messages costs, message by message. */
  function MessagesTokens(messages: seq<Message>, c: TokenCounter): nat {
    if messages == [] then 0
    else MessagesTokens(messages[..|messages| - 1], c) + c.count(messages[|messages| - 1].content)
  }

  lemma {:induction false} MessagesTokensAppend(a: seq<Message>, b: seq<Message>, c: TokenCounter)
    ensures MessagesTokens(a + b, c) == MessagesTokens(a, c) + MessagesTokens(b, c)
  {
    if b == [] {
      assert a + b == a;
    } else {
      MessagesTokensAppend(a, b[..|b| - 1], c);
      assert (a + b)[..|a + b| - 1] == a + b[..|b| - 1];
    }
  }

  lemma OneMessageTokens(m: Message, c: TokenCounter)
    ensures MessagesTokens([m], c) == c.count(m.content)
  {
    assert [m][..0] == [];
  }

  lemma AdditiveOnEmpty(c: TokenCounter)
    requires Additive(c)
    ensures c.count("") == 0
  {
    assert "" + "" == "";
    assert c.count("" + "") == c.count("") + c.count("");
  }
}
