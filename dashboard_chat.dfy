/** The dashboard's chat panel (`handleChatSubmit` in app/page.tsx): the
    message list and the input box, and the client-side keyword responder
    with the keys vessel, weather, pollution, alert and help. */
module DashboardChat {
  import opened Text
  import opened KeywordMatch
  import DashboardData

  /** The bot's opening message. */
  const Greeting := "Hello! I'm your maritime assistant. I can help you with vessel tracking, environmental monitoring, and safety alerts. What would you like to know?"

  /** Which canned reply the bot sends; `Fallback` is the default reply. */
  datatype Answer = AboutVessels | AboutWeather | AboutPollution | AboutAlerts | HelpText | Fallback

  /** How a JavaScript number with an integer value is written into a
      template literal. */
  function IntText(n: int): string
  {
    if n < 0 then "-" + Decimal(-n) else Decimal(n)
  }

  /** `x || fallback` for a string: the empty string (and `undefined`, here
      the empty string) falls back. */
  function OrElse(s: string, fallback: string): string
  {
    if s == "" then fallback else s
  }

  /** The pollution reply, `${environmental?.pollutionIndex || 45}`: an index
      of 0 is falsy and is shown as 45. The panel is only rendered once the
      environmental data is loaded, so `environmental` is never null here. */
  function PollutionReply(pollutionIndex: int): string
  {
    "Current pollution index is " + IntText(if pollutionIndex == 0 then 45 else pollutionIndex)
    + ". This is within acceptable limits for maritime operations."
  }

  function AlertSentence(count: nat, alertType: string, severity: string): string
  {
    "There are " + Decimal(count) + " active alerts. The most recent is a " + alertType
    + " with " + severity + " severity."
  }

  /** The alert reply: the number of alerts and the type and severity of the
      first one, with "Weather Warning" and "Medium" when there is none (or
      the field is empty). */
  function AlertReply(alerts: seq<DashboardData.Alert>): string
  {
    var first := if |alerts| > 0 then alerts[0] else DashboardData.Alert("", "", "", "", "");
    AlertSentence(|alerts|, OrElse(first.alertType, "Weather Warning"), OrElse(first.severity, "Medium"))
  }

  /** The reply texts, with the pollution and alert texts interpolated from
      the dashboard's current state. */
  function AnswerText(a: Answer, pollutionIndex: int, alerts: seq<DashboardData.Alert>): string
  {
    match a
    case AboutVessels => "I can see 12 vessels currently active in the monitoring area. 8 are cargo vessels, 2 are fishing boats, and 2 are passenger vessels."
    case AboutWeather => "Current weather conditions show moderate winds at 12 m/s with good visibility. Wave height is approximately 1.2 meters."
    case AboutPollution => PollutionReply(pollutionIndex)
    case AboutAlerts => AlertReply(alerts)
    case HelpText => "I can provide information about vessel positions, environmental conditions, weather updates, pollution levels, and safety alerts. Just ask!"
    case Fallback => "I'm here to help with maritime operations. You can ask about vessels, weather, pollution, or alerts."
  }

  /** The `responses` object in property order (Object.entries keeps the
      insertion order of string keys). */
  const Responses: Table<Answer> := [
    ("vessel", AboutVessels),
    ("weather", AboutWeather),
    ("pollution", AboutPollution),
    ("alert", AboutAlerts),
    ("help", HelpText)
  ]

  /** The reply the bot chooses for the text in the input box. */
  function BotReply(input: string): Answer
  {
    Reply(Responses, Fallback, Lower(input))
  }

  datatype Sender = User | Bot

  datatype ChatMessage = ChatMessage(sender: Sender, message: string)

  /** A conversation opens with the bot's greeting, then alternates a
      non-blank user message and a bot message. This is the shape with the
      one-second delay before the bot reply collapsed, as the model does;
      two submits within that second would give user, user, bot, bot. */
  ghost predicate WellFormedConversation(messages: seq<ChatMessage>)
  {
    |messages| % 2 == 1 && messages[0] == ChatMessage(Bot, Greeting)
    && forall k :: 1 <= k < |messages| ==>
         (messages[k].sender == User <==> k % 2 == 1)
         && (k % 2 == 1 ==> !AllSpace(messages[k].message))
  }

  /** One exchange keeps a conversation well formed. */
  lemma ExchangeKeepsWellFormed(messages: seq<ChatMessage>, input: string, reply: string)
    requires WellFormedConversation(messages)
    requires !AllSpace(input)
    ensures WellFormedConversation(messages + [ChatMessage(User, input), ChatMessage(Bot, reply)])
  {
    var next := messages + [ChatMessage(User, input), ChatMessage(Bot, reply)];
    forall k | 1 <= k < |next|
      ensures (next[k].sender == User <==> k % 2 == 1)
      ensures (k % 2 == 1 ==> !AllSpace(next[k].message))
    {
      if k < |messages| {
        assert next[k] == messages[k];
      }
    }
  }

  class ChatPanel {
    var chatMessages: seq<ChatMessage>
    var chatInput: string

    ghost predicate Valid()
      reads this
    {
      WellFormedConversation(chatMessages)
    }

    constructor ()
      ensures Valid()
      ensures chatMessages == [ChatMessage(Bot, Greeting)] && chatInput == ""
    {
      chatMessages := [ChatMessage(Bot, Greeting)];
      chatInput := "";
    }

    /** The input box's onChange handler, also used by the suggestion buttons. */
    method SetChatInput(value: string)
      requires Valid()
      modifies this
      ensures Valid()
      ensures chatInput == value && chatMessages == old(chatMessages)
    {
      chatInput := value;
    }

    /** handleChatSubmit, with the one-second reply delay already elapsed. */
    method HandleChatSubmit(environmental: DashboardData.Environment, alerts: seq<DashboardData.Alert>)
      requires Valid()
      modifies this
      ensures Valid()
      ensures AllSpace(old(chatInput)) ==> chatMessages == old(chatMessages) && chatInput == old(chatInput)
      ensures !AllSpace(old(chatInput)) ==>
        chatMessages == old(chatMessages) + [ChatMessage(User, old(chatInput)),
                                             ChatMessage(Bot, AnswerText(BotReply(old(chatInput)), environmental.pollutionIndex, alerts))]
        && chatInput == ""
    {
      if IsBlank(chatInput) {
        return;
      }
      var userMessage := ChatMessage(User, chatInput);
      var answer := Respond(Responses, Fallback, Lower(chatInput));
      var botResponse := AnswerText(answer, environmental.pollutionIndex, alerts);
      ExchangeKeepsWellFormed(chatMessages, chatInput, botResponse);
      chatMessages := chatMessages + [userMessage, ChatMessage(Bot, botResponse)];
      chatInput := "";
    }
  }

  /** The answer comes from the first key, in the order vessel, weather,
      pollution, alert, help, found in the lower-cased input; the default
      comes exactly when none is found. */
  lemma BotFirstMatchRule(input: string)
    ensures forall k :: IsFirstMatch(Responses, Lower(input), k) ==> BotReply(input) == Responses[k].1
    ensures NoKeyOccurs(Responses, Lower(input)) <==> BotReply(input) == Fallback
  {
    ReplyFallbackIffNoKey(Responses, Fallback, Lower(input));
    forall k | IsFirstMatch(Responses, Lower(input), k)
      ensures BotReply(input) == Responses[k].1
    {
      ReplyOfFirstMatch(Responses, Fallback, Lower(input), k);
    }
  }

  /** "vessel" is checked first: any input containing it gets the vessel answer. */
  lemma VesselFirst(input: string)
    requires Contains(Lower(input), "vessel")
    ensures BotReply(input) == AboutVessels
  {
    ReplyOfFirstMatch(Responses, Fallback, Lower(input), 0);
  }

  lemma WeatherUnlessVessel(input: string)
    requires Contains(Lower(input), "weather") && !Contains(Lower(input), "vessel")
    ensures BotReply(input) == AboutWeather
  {
    ReplyOfFirstMatch(Responses, Fallback, Lower(input), 1);
  }

  lemma PollutionUnlessEarlier(input: string)
    requires Contains(Lower(input), "pollution")
    requires !Contains(Lower(input), "vessel") && !Contains(Lower(input), "weather")
    ensures BotReply(input) == AboutPollution
  {
    ReplyOfFirstMatch(Responses, Fallback, Lower(input), 2);
  }

  /** "alert" is checked before "help": text with both, and none of the
      earlier keys, gets the alert answer. */
  lemma AlertBeatsHelp(input: string)
    requires Contains(Lower(input), "alert")
    requires !Contains(Lower(input), "vessel") && !Contains(Lower(input), "weather")
    requires !Contains(Lower(input), "pollution")
    ensures BotReply(input) == AboutAlerts
  {
    ReplyOfFirstMatch(Responses, Fallback, Lower(input), 3);
  }

  /** The `|| 45` fallback only changes an index of 0; an index from the
      generator (20 .. 79) is shown as it is, and different indices give
      different texts. */
  lemma PollutionReplyShowsIndex(pollutionIndex: int, other: int)
    ensures PollutionReply(0) == PollutionReply(45)
    ensures 20 <= pollutionIndex <= 79 ==>
      PollutionReply(pollutionIndex) == "Current pollution index is " + Decimal(pollutionIndex)
        + ". This is within acceptable limits for maritime operations."
    ensures 0 < pollutionIndex && 0 < other && pollutionIndex != other ==>
      PollutionReply(pollutionIndex) != PollutionReply(other)
  {
    if 0 < pollutionIndex && 0 < other && PollutionReply(pollutionIndex) == PollutionReply(other) {
      var pre := "Current pollution index is ";
      var post := ". This is within acceptable limits for maritime operations.";
      var a := Decimal(pollutionIndex);
      var b := Decimal(other);
      assert pre + a + post == pre + b + post;
      AffixCancel(pre, a, b, post);
      DecimalInjective(pollutionIndex, other);
    }
  }

  /** For the alerts the generator produces (at least two, each with a type
      and a severity from the lists), the reply names the count and the first
      alert's type and severity, never the fallbacks. */
  lemma AlertReplyOfGenerated(alerts: seq<DashboardData.Alert>, draws: seq<DashboardData.AlertDraw>)
    requires |alerts| > 0 && |draws| > 0 && alerts[0] == DashboardData.AlertRecord(0, draws[0])
    ensures AlertReply(alerts) == AlertSentence(|alerts|, alerts[0].alertType, alerts[0].severity)
  {
    var t := alerts[0].alertType;
    var v := alerts[0].severity;
    assert t in DashboardData.AlertTypes && v in DashboardData.Severities;
    assert t != "" && v != "";
  }

  /** With no alerts the reply falls back to "Weather Warning" and "Medium". */
  lemma AlertReplyWithoutAlerts()
    ensures AlertReply([]) == AlertSentence(0, "Weather Warning", "Medium")
  {
  }

  /** Worked example: "help with alerts" is answered about alerts. */
  lemma HelpWithAlertsExample(input: string)
    requires input == "help with alerts"
    ensures BotReply(input) == AboutAlerts
  {
    HelpWithAlertsLower(input);
    AlertBeatsHelp(input);
  }

  lemma HelpWithAlertsLower(m: string)
    requires m == "help with alerts"
    ensures Contains(Lower(m), "alert")
    ensures !Contains(Lower(m), "vessel") && !Contains(Lower(m), "weather") && !Contains(Lower(m), "pollution")
  {
    LowerOfLowercase(m);
    HelpWithAlertsKeys(m);
  }

  lemma HelpWithAlertsKeys(m: string)
    requires m == "help with alerts"
    ensures Contains(m, "alert")
    ensures !Contains(m, "vessel") && !Contains(m, "weather") && !Contains(m, "pollution")
  {
    assert m == "help with " + "alert" + "s";
    FactorContained("help with ", "alert", "s");
    FirstCharAbsent(m, "vessel");
    HelpWithAlertsNoWeather(m);
    HelpWithAlertsNoPollution(m);
  }

  lemma HelpWithAlertsNoWeather(m: string)
    requires m == "help with alerts"
    ensures !Contains(m, "weather")
  {
    forall p | 0 <= p && p + 7 <= |m|
      ensures !OccursAt(m, "weather", p)
    {
      if p == 5 { MismatchAt(m, "weather", p, 1); } else { MismatchAt(m, "weather", p, 0); }
    }
    ContainsIffOccurs(m, "weather");
  }

  lemma HelpWithAlertsNoPollution(m: string)
    requires m == "help with alerts"
    ensures !Contains(m, "pollution")
  {
    forall p | 0 <= p && p + 9 <= |m|
      ensures !OccursAt(m, "pollution", p)
    {
      if p == 3 { MismatchAt(m, "pollution", p, 1); } else { MismatchAt(m, "pollution", p, 0); }
    }
    ContainsIffOccurs(m, "pollution");
  }

  /** The suggestion buttons ("Show vessel status", "Weather conditions",
      "Pollution levels", "Active alerts") put phrases in the input box that
      are answered with the vessel, weather, pollution and alert replies. */
  lemma SuggestionVessel(input: string)
    requires input == "Show vessel status"
    ensures BotReply(input) == AboutVessels
  {
    SuggestionVesselLower(input);
    VesselFirst(input);
  }

  lemma SuggestionVesselLower(input: string)
    requires input == "Show vessel status"
    ensures Contains(Lower(input), "vessel")
  {
    LowerTo(input, "show vessel status");
    ShowVesselStatusKeys("show vessel status");
  }

  lemma ShowVesselStatusKeys(m: string)
    requires m == "show vessel status"
    ensures Contains(m, "vessel")
  {
    assert m == "show " + "vessel" + " status";
    FactorContained("show ", "vessel", " status");
  }

  lemma SuggestionWeather(input: string)
    requires input == "Weather conditions"
    ensures BotReply(input) == AboutWeather
  {
    SuggestionWeatherLower(input);
    WeatherUnlessVessel(input);
  }

  lemma SuggestionWeatherLower(input: string)
    requires input == "Weather conditions"
    ensures Contains(Lower(input), "weather") && !Contains(Lower(input), "vessel")
  {
    LowerTo(input, "weather conditions");
    WeatherConditionsKeys("weather conditions");
  }

  lemma WeatherConditionsKeys(m: string)
    requires m == "weather conditions"
    ensures Contains(m, "weather") && !Contains(m, "vessel")
  {
    assert m == "" + "weather" + " conditions";
    FactorContained("", "weather", " conditions");
    FirstCharAbsent(m, "vessel");
  }

  lemma SuggestionPollution(input: string)
    requires input == "Pollution levels"
    ensures BotReply(input) == AboutPollution
  {
    SuggestionPollutionLower(input);
    PollutionUnlessEarlier(input);
  }

  lemma SuggestionPollutionLower(input: string)
    requires input == "Pollution levels"
    ensures Contains(Lower(input), "pollution")
    ensures !Contains(Lower(input), "vessel") && !Contains(Lower(input), "weather")
  {
    LowerTo(input, "pollution levels");
    PollutionLevelsKeys("pollution levels");
  }

  lemma PollutionLevelsKeys(m: string)
    requires m == "pollution levels"
    ensures Contains(m, "pollution") && !Contains(m, "vessel") && !Contains(m, "weather")
  {
    assert m == "" + "pollution" + " levels";
    FactorContained("", "pollution", " levels");
    forall p | 0 <= p && p + 6 <= |m|
      ensures !OccursAt(m, "vessel", p)
    {
      MismatchAt(m, "vessel", p, 0);
    }
    ContainsIffOccurs(m, "vessel");
    FirstCharAbsent(m, "weather");
  }

  lemma SuggestionAlert(input: string)
    requires input == "Active alerts"
    ensures BotReply(input) == AboutAlerts
  {
    SuggestionAlertLower(input);
    AlertBeatsHelp(input);
  }

  lemma SuggestionAlertLower(input: string)
    requires input == "Active alerts"
    ensures Contains(Lower(input), "alert")
    ensures !Contains(Lower(input), "vessel") && !Contains(Lower(input), "weather") && !Contains(Lower(input), "pollution")
  {
    LowerTo(input, "active alerts");
    ActiveAlertsKeys("active alerts");
  }

  lemma ActiveAlertsKeys(m: string)
    requires m == "active alerts"
    ensures Contains(m, "alert")
    ensures !Contains(m, "vessel") && !Contains(m, "weather") && !Contains(m, "pollution")
  {
    assert m == "active " + "alert" + "s";
    FactorContained("active ", "alert", "s");
    forall p | 0 <= p && p + 6 <= |m|
      ensures !OccursAt(m, "vessel", p)
    {
      if p == 4 { MismatchAt(m, "vessel", p, 2); } else { MismatchAt(m, "vessel", p, 0); }
    }
    ContainsIffOccurs(m, "vessel");
    FirstCharAbsent(m, "weather");
    FirstCharAbsent(m, "pollution");
  }
}
