/** The conversation-history buffer of the language-model client. Each
    successful request appends the user message and the reply to the
    history, which keeps only the newest `2 * max_history` messages; failed
    requests leave it alone and produce a fixed apology. The HTTP request
    is a function from the message list sent to what came back. */
module Llm {
  import opened Wrappers

  datatype Role = System | User | Assistant

  datatype Message = Message(role: Role, content: string)

  /** How the chat-completions request ended: a reply text, a timeout, an
      HTTP error status from `raise_for_status`, or any other exception
      (connection failure, malformed or unexpected JSON). */
  datatype ApiOutcome = Completed(content: string) | TimedOut | HttpError(status: int) | OtherError

  const DefaultSystemPrompt: string :=
    "You are a friendly, helpful school robot assistant. " +
    "You help students with their questions in a clear, educational, " +
    "and engaging way. Keep responses concise (2-3 sentences) and appropriate " +
    "for a school environment. Be encouraging and supportive."

  const TimeoutReply: string := "I'm sorry, I'm taking too long to think. Can you ask me again?"
  const AuthReply: string := "Sorry, there's an authentication issue. Please check the API key."
  const OverloadedReply: string := "I'm a bit overwhelmed right now. Please try again in a moment."
  const HttpErrorReply: string := "Sorry, I'm having trouble processing that right now."
  const UnexpectedReply: string := "Sorry, I encountered an error. Can you try asking that differently?"

  /** The apology returned for a failed request. */
  function ErrorReply(outcome: ApiOutcome): string
    requires !outcome.Completed?
  {
    match outcome
    case TimedOut => TimeoutReply
    case HttpError(status) =>
      if status == 401 then AuthReply
      else if status == 429 then OverloadedReply
      else HttpErrorReply
    case OtherError => UnexpectedReply
  }

  /** Each kind of failure has its own apology, so the reply tells which
      kind occurred. */
  lemma ErrorReplyIdentifiesFailure(outcome: ApiOutcome)
    requires !outcome.Completed?
    ensures var r := ErrorReply(outcome);
      (r == TimeoutReply <==> outcome == TimedOut) &&
      (r == AuthReply <==> outcome == HttpError(401)) &&
      (r == OverloadedReply <==> outcome == HttpError(429)) &&
      (r == HttpErrorReply <==> outcome.HttpError? && outcome.status != 401 && outcome.status != 429) &&
      (r == UnexpectedReply <==> outcome == OtherError)
  {
  }

  /** A history made of whole exchanges: user message, then reply. */
  ghost predicate IsExchanges(history: seq<Message>)
  {
    |history| % 2 == 0 &&
    forall i :: 0 <= i < |history| ==> history[i].role == if i % 2 == 0 then User else Assistant
  }

  /** The last `bound` messages, or all of them when there are fewer. */
  function Trim(history: seq<Message>, bound: nat): (r: seq<Message>)
    ensures |r| == if |history| > bound then bound else |history|
    ensures r == history[|history| - |r|..]
  {
    if |history| > bound then history[|history| - bound..] else history
  }

  /** Dropping an even number of messages from the front of whole
      exchanges leaves whole exchanges. */
  lemma SuffixKeepsExchanges(history: seq<Message>, offset: nat)
    requires IsExchanges(history) && offset % 2 == 0 && offset <= |history|
    ensures IsExchanges(history[offset..])
  {
    var r := history[offset..];
    forall i | 0 <= i < |r|
      ensures r[i].role == if i % 2 == 0 then User else Assistant
    {
      assert r[i] == history[offset + i];
      assert (offset + i) % 2 == i % 2;
    }
  }

  /** Trimming whole exchanges to an even bound keeps whole exchanges, and
      keeps the newest exchange when the bound leaves room for it. */
  lemma TrimKeepsExchanges(history: seq<Message>, bound: nat)
    requires IsExchanges(history) && bound % 2 == 0
    ensures IsExchanges(Trim(history, bound))
    ensures |history| >= 2 && bound >= 2 ==>
      Trim(history, bound)[|Trim(history, bound)| - 2..] == history[|history| - 2..]
  {
    var r := Trim(history, bound);
    var offset := |history| - |r|;
    assert r == history[offset..];
    SuffixKeepsExchanges(history, offset);
  }

  /** Appending an exchange to whole exchanges gives whole exchanges. */
  lemma AppendExchange(history: seq<Message>, userInput: string, reply: string)
    requires IsExchanges(history)
    ensures IsExchanges(history + [Message(User, userInput), Message(Assistant, reply)])
  {
    var h := history + [Message(User, userInput), Message(Assistant, reply)];
    forall i | 0 <= i < |h|
      ensures h[i].role == if i % 2 == 0 then User else Assistant
    {
      if i >= |history| {
        assert i == |history| || i == |history| + 1;
      }
    }
  }

  // ---------------------------------------------------------------------
  // Decimal rendering of counts, as an f-string does it

  function DigitChar(d: nat): (c: char)
    requires d < 10
    ensures '0' <= c <= '9' && (c == '0' <==> d == 0)
  {
    ('0' as int + d) as char
  }

  function DigitValue(c: char): nat
  {
    if '0' <= c <= '9' then (c as int - '0' as int) as nat else 0
  }

  /** The decimal digits of `n`, without leading zeros. */
  function NatToDecimal(n: nat): (s: string)
    ensures IsCanonicalDecimal(s)
  {
    if n < 10 then [DigitChar(n)] else NatToDecimal(n / 10) + [DigitChar(n % 10)]
  }

  /** Digits only, and no leading zero unless the number is 0 itself. */
  predicate IsCanonicalDecimal(s: string)
  {
    |s| >= 1 && (forall i :: 0 <= i < |s| ==> '0' <= s[i] <= '9') && (|s| == 1 || s[0] != '0')
  }

  function DecimalValue(s: string): nat
  {
    if s == [] then 0 else 10 * DecimalValue(s[..|s| - 1]) + DigitValue(s[|s| - 1])
  }

  /** Reading back the decimal rendering of a number gives the number. */
  lemma {:induction false} DecimalRoundTrip(n: nat)
    ensures DecimalValue(NatToDecimal(n)) == n
  {
    var s := NatToDecimal(n);
    if n < 10 {
      assert s[..|s| - 1] == [];
    } else {
      assert s[..|s| - 1] == NatToDecimal(n / 10);
      DecimalRoundTrip(n / 10);
    }
  }

  /** A canonical numeral that does not start with 0 denotes at least 1. */
  lemma {:induction false} LeadingDigitPositive(s: string)
    requires IsCanonicalDecimal(s) && s[0] != '0'
    ensures DecimalValue(s) >= 1
  {
    if |s| > 1 {
      var prefix := s[..|s| - 1];
      assert prefix[0] == s[0];
      LeadingDigitPositive(prefix);
    }
  }

  /** A number has only one canonical numeral: every canonical numeral is
      the rendering of its own value. */
  lemma {:induction false} CanonicalDecimalUnique(s: string)
    requires IsCanonicalDecimal(s)
    ensures NatToDecimal(DecimalValue(s)) == s
  {
    if |s| > 1 {
      var prefix := s[..|s| - 1];
      assert prefix[0] == s[0];
      assert IsCanonicalDecimal(prefix);
      CanonicalDecimalUnique(prefix);
      LeadingDigitPositive(prefix);
      var d := DigitValue(s[|s| - 1]);
      assert DecimalValue(s) / 10 == DecimalValue(prefix) && DecimalValue(s) % 10 == d;
      assert s == prefix + [DigitChar(d)];
    }
  }

  const NoHistorySummary: string := "No conversation history"
  const SummaryPrefix: string := "Conversation history: "
  const SummarySuffix: string := " exchanges"

  class LlmProcessor {
    var systemPrompt: string
    var conversationHistory: seq<Message>
    const maxHistory: nat

    /** The history holds at most `2 * max_history` messages, in whole
        user/assistant exchanges. */
    ghost predicate Valid()
      reads this
    {
      maxHistory == 10 && |conversationHistory| <= 2 * maxHistory && IsExchanges(conversationHistory)
    }

    /** A missing system prompt is replaced by the default one. */
    constructor (systemPrompt: Option<string>)
      ensures Valid() && conversationHistory == []
      ensures this.systemPrompt == match systemPrompt
        case None => DefaultSystemPrompt
        case Some(prompt) => prompt
    {
      this.systemPrompt := match systemPrompt
        case None => DefaultSystemPrompt
        case Some(prompt) => prompt;
      conversationHistory := [];
      maxHistory := 10;
    }

    /** `generate_response`: the request carries the system prompt, the
        whole history and the new user message, in that order. On success
        the reply is returned and the exchange appended, keeping only the
        newest `2 * max_history` messages; on any failure the history is
        unchanged and the apology for that failure is returned. */
    method GenerateResponse(userInput: string, api: seq<Message> -> ApiOutcome) returns (reply: string, ghost sent: seq<Message>)
      requires Valid()
      modifies this`conversationHistory
      ensures Valid()
      ensures sent == [Message(System, systemPrompt)] + old(conversationHistory) + [Message(User, userInput)]
      ensures api(sent).Completed? ==>
        reply == api(sent).content &&
        conversationHistory == Trim(old(conversationHistory) + [Message(User, userInput), Message(Assistant, reply)], 2 * maxHistory)
      ensures !api(sent).Completed? ==> reply == ErrorReply(api(sent)) && conversationHistory == old(conversationHistory)
    {
      var messages := [Message(System, systemPrompt)];
      messages := messages + conversationHistory;
      messages := messages + [Message(User, userInput)];
      sent := messages;
      var outcome := api(messages);
      if !outcome.Completed? {
        return ErrorReply(outcome), sent;
      }
      reply := outcome.content;
      AddExchange(userInput, reply);
    }

    /** The success path of `generate_response`: append the user message and
        the reply, then keep only the newest `2 * max_history` messages. The
        history stays whole exchanges and ends with the new one. */
    method AddExchange(userInput: string, reply: string)
      requires Valid()
      modifies this`conversationHistory
      ensures Valid()
      ensures conversationHistory == Trim(old(conversationHistory) + [Message(User, userInput), Message(Assistant, reply)], 2 * maxHistory)
    {
      var history := conversationHistory + [Message(User, userInput)];
      history := history + [Message(Assistant, reply)];
      if |history| > maxHistory * 2 {
        history := history[|history| - maxHistory * 2..];
      }
      SuccessEndsWithNewExchange(conversationHistory, userInput, reply);
      assert history == Trim(conversationHistory + [Message(User, userInput), Message(Assistant, reply)], 20);
      conversationHistory := history;
    }

    /** `clear_history`. */
    method ClearHistory()
      requires Valid()
      modifies this`conversationHistory
      ensures Valid() && conversationHistory == []
    {
      conversationHistory := [];
    }

    /** `set_system_prompt`: later requests open with the new prompt. */
    method SetSystemPrompt(prompt: string)
      requires Valid()
      modifies this`systemPrompt
      ensures Valid() && systemPrompt == prompt
    {
      systemPrompt := prompt;
    }

    /** `get_history_summary`: a fixed text for an empty history, otherwise
        the number of exchanges, `len(history) // 2`, in decimal. */
    function HistorySummary(): (r: string)
      reads this
      ensures r == NoHistorySummary <==> conversationHistory == []
      ensures conversationHistory != [] ==>
        |r| > |SummaryPrefix| + |SummarySuffix| &&
        r[..|SummaryPrefix|] == SummaryPrefix && r[|r| - |SummarySuffix|..] == SummarySuffix &&
        IsCanonicalDecimal(r[|SummaryPrefix|..|r| - |SummarySuffix|]) &&
        DecimalValue(r[|SummaryPrefix|..|r| - |SummarySuffix|]) == |conversationHistory| / 2
    {
      if conversationHistory == [] then NoHistorySummary
      else
        var digits := NatToDecimal(|conversationHistory| / 2);
        var r := SummaryPrefix + digits + SummarySuffix;
        DecimalRoundTrip(|conversationHistory| / 2);
        assert r[|SummaryPrefix|..|r| - |SummarySuffix|] == digits;
        assert r[..|SummaryPrefix|] == SummaryPrefix;
        assert r != NoHistorySummary by {
          assert r[0] != NoHistorySummary[0];
        }
        r
    }
  }

  /** From a valid state, the history after a successful request is the
      newest exchanges, ending with the one just made. */
  lemma SuccessEndsWithNewExchange(history: seq<Message>, userInput: string, reply: string)
    requires IsExchanges(history) && |history| <= 20
    ensures var h := Trim(history + [Message(User, userInput), Message(Assistant, reply)], 20);
      IsExchanges(h) && |h| <= 20 && |h| >= 2 &&
      h[|h| - 2..] == [Message(User, userInput), Message(Assistant, reply)] &&
      (|history| < 20 ==> h == history + [Message(User, userInput), Message(Assistant, reply)]) &&
      (|history| == 20 ==> h == history[2..] + [Message(User, userInput), Message(Assistant, reply)])
  {
    var extended := history + [Message(User, userInput), Message(Assistant, reply)];
    AppendExchange(history, userInput, reply);
    TrimKeepsExchanges(extended, 20);
    assert extended[|extended| - 2..] == [Message(User, userInput), Message(Assistant, reply)];
    if |history| == 20 {
      assert extended[2..] == history[2..] + [Message(User, userInput), Message(Assistant, reply)];
    }
  }
}
