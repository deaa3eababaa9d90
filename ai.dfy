/**
 * The chatbot: a keyword matcher over a knowledge base of intents, read from
 * JSON and given here as a value.
 */
module Ai {
  import opened Wrappers
  import opened Text

  /** One intent object; either field may be missing from the JSON. */
  datatype Intent = Intent(keywords: Option<seq<string>>, answer: Option<string>)

  /** knowledge_base.values(), in the file's order. */
  type KnowledgeBase = seq<Intent>

  const Fallback := "I'm sorry, " + "I don't have information " + "on that topic right now. "
    + "Please try asking about " + "how to verify a drug " + "or report a counterfeit."

  const NoMessage := "I'm sorry, " + "I didn't receive a message."

  /** The KeyError raised for an intent that matches but has no "answer". */
  const MissingAnswer := "KeyError: 'answer'"

  /** intent_data.get("keywords", []). */
  function KeywordsOf(intent: Intent): seq<string> {
    intent.keywords.GetOr([])
  }

  /** Some keyword of the intent occurs in the (already lower-cased) message. */
  predicate Matches(intent: Intent, message: string) {
    exists k :: 0 <= k < |KeywordsOf(intent)| && Contains(message, KeywordsOf(intent)[k])
  }

  /** The position of the first intent that matches, None when none does. */
  function FirstMatch(kb: KnowledgeBase, message: string): (r: Option<nat>)
    ensures r.None? <==> forall i :: 0 <= i < |kb| ==> !Matches(kb[i], message)
    ensures r.Some? ==> r.value < |kb| && Matches(kb[r.value], message)
                        && forall i :: 0 <= i < r.value ==> !Matches(kb[i], message)
  {
    if |kb| == 0 then None
    else if Matches(kb[0], message) then Some(0)
    else match FirstMatch(kb[1..], message)
      case None => None
      case Some(i) => Some(i + 1)
  }

  /** What the matcher answers for the first matching intent, or the fallback. */
  function AnswerFor(kb: KnowledgeBase, message: string): Result<string> {
    match FirstMatch(kb, message)
    case None => Ok(Fallback)
    case Some(i) => if kb[i].answer.Some? then Ok(kb[i].answer.value) else Err(MissingAnswer)
  }

  /**
   * get_ai_response(user_message, knowledge_base): the message is lower-cased, then the
   * intents are searched in order and, inside each, its keywords in order; the first keyword
   * found in the message returns its intent's answer.
   */
  method GetAiResponse(userMessage: string, kb: KnowledgeBase) returns (r: Result<string>)
    ensures r == AnswerFor(kb, Lower(userMessage))
  {
    var message := Lower(userMessage);
    var i := 0;
    while i < |kb|
      invariant 0 <= i <= |kb|
      invariant forall j :: 0 <= j < i ==> !Matches(kb[j], message)
    {
      var keywords := KeywordsOf(kb[i]);
      var k := 0;
      while k < |keywords|
        invariant 0 <= k <= |keywords|
        invariant forall l :: 0 <= l < k ==> !Contains(message, keywords[l])
      {
        if Contains(message, keywords[k]) {
          assert Matches(kb[i], message);
          FirstMatchIs(kb, message, i);
          if kb[i].answer.None? {
            return Err(MissingAnswer);
          }
          return Ok(kb[i].answer.value);
        }
        k := k + 1;
      }
      i := i + 1;
    }
    return Ok(Fallback);
  }

  lemma FirstMatchIs(kb: KnowledgeBase, message: string, i: nat)
    requires i < |kb| && Matches(kb[i], message)
    requires forall j :: 0 <= j < i ==> !Matches(kb[j], message)
    ensures FirstMatch(kb, message) == Some(i)
  {
  }

  /** A successful answer is the fallback or the answer of an intent that matches. */
  lemma AnswerIsKnown(kb: KnowledgeBase, message: string)
    ensures AnswerFor(kb, message).Ok? ==>
      AnswerFor(kb, message).value == Fallback
      || exists i :: 0 <= i < |kb| && Matches(kb[i], message) && kb[i].answer == Some(AnswerFor(kb, message).value)
  {
  }

  /** An intent without keywords is never chosen. */
  lemma NoKeywordsNeverMatch(kb: KnowledgeBase, message: string, i: nat)
    requires i < |kb| && kb[i].keywords.None?
    ensures FirstMatch(kb, message) != Some(i)
  {
  }

  /** An earlier matching intent shadows every later one. */
  lemma EarlierIntentWins(kb: KnowledgeBase, message: string, i: nat, j: nat)
    requires i < j < |kb| && Matches(kb[i], message)
    ensures FirstMatch(kb, message) != Some(j)
  {
  }

  /** Keywords are compared verbatim with the lower-cased message: one holding an upper-case
      ASCII letter can never match. */
  lemma UpperCaseKeywordNeverMatches(userMessage: string, keyword: string, p: nat)
    requires p < |keyword| && 'A' <= keyword[p] <= 'Z'
    ensures !Contains(Lower(userMessage), keyword)
  {
    var low := Lower(userMessage);
    forall i | 0 <= i <= |low|
      ensures !StartsWith(low[i..], keyword)
    {
      if i + p < |low| {
        assert low[i..][p] == LowerChar(userMessage[i + p]);
      }
    }
  }

  /** The answer of /chat. */
  datatype ChatReply = ChatReply(status: int, answer: string)

  /**
   * handle_chat(): `message` is the JSON "message" field (None when absent, read as ""). An
   * empty message is refused with 400 before the matcher runs; a missing "answer" in the
   * chosen intent surfaces as a 500.
   */
  method HandleChat(message: Option<string>, kb: KnowledgeBase) returns (reply: ChatReply)
    ensures message.GetOr("") == [] <==> reply == ChatReply(400, NoMessage)
    ensures message.GetOr("") != [] ==>
      match AnswerFor(kb, Lower(message.GetOr("")))
      case Ok(a) => reply == ChatReply(200, a)
      case Err(e) => reply == ChatReply(500, e)
  {
    var userMessage := message.GetOr("");
    if userMessage == [] {
      return ChatReply(400, NoMessage);
    }
    var response := GetAiResponse(userMessage, kb);
    match response
    case Ok(a) => reply := ChatReply(200, a);
    case Err(e) => reply := ChatReply(500, e);
  }
}
