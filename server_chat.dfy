/** The server's chat endpoint (`api_chat` in app.py): lower-case the
    `message` field of the request body and answer with the canned reply of
    the first keyword, in the order hello, vessels, weather, pollution,
    alerts, help, that occurs in it. */
module ServerChat {
  import opened Text
  import opened KeywordMatch

  /** Which canned reply is sent; `Fallback` is the default reply. */
  datatype Answer = Greeting | AboutVessels | AboutWeather | AboutPollution | AboutAlerts | HelpText | Fallback

  /** The reply texts of the `responses` dict and the default `response`. */
  function AnswerText(a: Answer): string
  {
    match a
    case Greeting => "Hello! I'm your maritime assistant. How can I help you today?"
    case AboutVessels => "I can show you current vessel positions and status. Check the vessels page for real-time tracking."
    case AboutWeather => "Current weather conditions show moderate winds and good visibility. Check the environment section for details."
    case AboutPollution => "Pollution levels are being monitored continuously. Current index shows acceptable levels."
    case AboutAlerts => "There are several active alerts. Would you like me to show you the most critical ones?"
    case HelpText => "I can help you with vessel tracking, environmental monitoring, weather updates, and maritime alerts. What would you like to know?"
    case Fallback => "I'm here to help with maritime operations. You can ask about vessels, weather, pollution, or alerts."
  }

  /** The response dictionary in insertion order, which is the order a
      Python 3.7+ dict iterates in. */
  const Responses: Table<Answer> := [
    ("hello", Greeting),
    ("vessels", AboutVessels),
    ("weather", AboutWeather),
    ("pollution", AboutPollution),
    ("alerts", AboutAlerts),
    ("help", HelpText)
  ]

  /** `request.json.get('message', '')`: the JSON body's string fields. */
  function MessageField(body: map<string, string>): (m: string)
    ensures "message" in body ==> m == body["message"]
    ensures "message" !in body ==> m == ""
  {
    if "message" in body then body["message"] else ""
  }

  /** The reply the endpoint chooses for a raw (not yet lower-cased) message. */
  function ChatReply(message: string): Answer
  {
    Reply(Responses, Fallback, Lower(message))
  }

  /** The endpoint: normalise the message, run the first-match loop and send
      the chosen text as `{"response": ...}`. */
  method ApiChat(body: map<string, string>) returns (response: string)
    ensures response == AnswerText(ChatReply(MessageField(body)))
  {
    var userMessage := Lower(MessageField(body));
    var answer := Respond(Responses, Fallback, userMessage);
    response := AnswerText(answer);
  }

  /** A message whose first occurring keyword (in declaration order) is entry
      k gets entry k's reply; the default comes exactly when no keyword of
      the table occurs. */
  lemma ChatFirstMatchRule(message: string)
    ensures forall k :: IsFirstMatch(Responses, Lower(message), k) ==> ChatReply(message) == Responses[k].1
    ensures NoKeyOccurs(Responses, Lower(message)) <==> ChatReply(message) == Fallback
  {
    ReplyFallbackIffNoKey(Responses, Fallback, Lower(message));
    forall k | IsFirstMatch(Responses, Lower(message), k)
      ensures ChatReply(message) == Responses[k].1
    {
      ReplyOfFirstMatch(Responses, Fallback, Lower(message), k);
    }
  }

  /** "hello" is checked first, so it beats "help" (and every other key). */
  lemma HelloBeatsHelp(message: string)
    requires Contains(Lower(message), "hello")
    ensures ChatReply(message) == Greeting
  {
    ReplyOfFirstMatch(Responses, Fallback, Lower(message), 0);
  }

  /** "vessels" answers whenever it occurs and "hello" does not. */
  lemma VesselsUnlessHello(message: string)
    requires Contains(Lower(message), "vessels") && !Contains(Lower(message), "hello")
    ensures ChatReply(message) == AboutVessels
  {
    ReplyOfFirstMatch(Responses, Fallback, Lower(message), 1);
  }

  /** "weather" beats the later "pollution", "alerts" and "help", provided
      neither of the earlier keys "hello" and "vessels" occurs. */
  lemma WeatherBeatsLaterKeys(message: string)
    requires Contains(Lower(message), "weather")
    requires !Contains(Lower(message), "hello") && !Contains(Lower(message), "vessels")
    ensures ChatReply(message) == AboutWeather
  {
    ReplyOfFirstMatch(Responses, Fallback, Lower(message), 2);
  }

  /** A body without a `message` field is read as "" and gets the default. */
  lemma MissingMessageGetsDefault(body: map<string, string>)
    requires "message" !in body
    ensures ChatReply(MessageField(body)) == Fallback
  {
    forall j | 0 <= j < |Responses|
      ensures !Contains("", Responses[j].0)
    {
      LongKeyAbsent("", Responses[j].0);
    }
    ReplyFallbackIffNoKey(Responses, Fallback, "");
  }

  /** Upper-case letters in the message do not change the answer. */
  lemma ReplyIgnoresCase(message: string)
    ensures ChatReply(Lower(message)) == ChatReply(message)
  {
    LowerIdempotent(message);
  }

  /** Worked example: a greeting. */
  lemma GreetingExample(m: string)
    requires m == "Hello there"
    ensures ChatReply(m) == Greeting
  {
    GreetingExampleKeys(m);
    HelloBeatsHelp(m);
  }

  lemma GreetingExampleKeys(m: string)
    requires m == "Hello there"
    ensures Contains(Lower(m), "hello")
  {
    LowerTo(m, "hello there");
    assert "hello there" == "" + "hello" + " there";
    FactorContained("", "hello", " there");
  }

  /** Worked example: a question about vessels. */
  lemma VesselsExample(m: string)
    requires m == "what about vessels"
    ensures ChatReply(m) == AboutVessels
  {
    VesselsExampleLower(m);
    VesselsUnlessHello(m);
  }

  lemma VesselsExampleLower(m: string)
    requires m == "what about vessels"
    ensures Contains(Lower(m), "vessels") && !Contains(Lower(m), "hello")
  {
    LowerOfLowercase(m);
    VesselsExampleKeys(m);
  }

  lemma VesselsExampleKeys(m: string)
    requires m == "what about vessels"
    ensures Contains(m, "vessels") && !Contains(m, "hello")
  {
    assert m == "what about " + "vessels" + "";
    FactorContained("what about ", "vessels", "");
    forall p | 0 <= p && p + 5 <= |m|
      ensures !OccursAt(m, "hello", p)
    {
      if p == 1 { MismatchAt(m, "hello", p, 1); } else { MismatchAt(m, "hello", p, 0); }
    }
    ContainsIffOccurs(m, "hello");
  }

  /** Worked example: a message without any keyword. */
  lemma NoKeywordExample(m: string)
    requires m == "xyz"
    ensures ChatReply(m) == Fallback
  {
    LowerOfLowercase(m);
    forall j | 0 <= j < |Responses|
      ensures !Contains(m, Responses[j].0)
    {
      LongKeyAbsent(m, Responses[j].0);
    }
    ReplyFallbackIffNoKey(Responses, Fallback, m);
  }
}
