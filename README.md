# nautic-nav: a verified model of the chat responders and data generators

nautic-nav is a mock maritime monitoring dashboard. It has a Flask server (`app.py`) and a React page (`app/page.tsx`). Almost all of it is routing, rendering and random-number calls. This project models the parts of it that have sequential logic:

- **The server chat endpoint** `api_chat`. It lower-cases the `message` field of the request body. It walks the ordered response dictionary (hello, vessels, weather, pollution, alerts, help) and answers with the reply of the first key that occurs in the message. If no key occurs, it answers with a default text.
- **The dashboard chat panel** `handleChatSubmit`. This is a `ChatPanel` class with the `chatMessages` and `chatInput` state. Blank input is ignored. Otherwise the user message and one bot reply are appended and the input box is cleared. The bot reply comes from the same first-match rule with the keys vessel, weather, pollution, alert and help. The pollution and alert replies are built from the dashboard's current data.
- **The mock data generators** on both sides, with every random draw supplied by the caller. This covers:
  - record counts, ids and names;
  - membership of types, statuses and severities in their lists;
  - the integer ranges;
  - the client's alert loop, whose bound is drawn again every time the loop condition is evaluated.
- **The dashboard's display rules**:
  - the status and severity badge colours;
  - the pollution label;
  - the vessel-map grid.

Modules:

| file | module | models |
|---|---|---|
| `text.dfy` | `Text` | decimal rendering of integers, ASCII lower-casing, substring search (`in` / `includes`), JavaScript `trim` |
| `keyword_match.dfy` | `KeywordMatch` | the ordered first-match loop that both chat responders share |
| `server_chat.dfy` | `ServerChat` | `api_chat` |
| `server_data.dfy` | `ServerData` | `generate_vessel_data`, `generate_environmental_data`, `generate_alerts`, `api_analytics` |
| `dashboard_data.dfy` | `DashboardData` | `generateVesselData`, `generateEnvironmentalData`, `generateAlerts` |
| `dashboard_chat.dfy` | `DashboardChat` | the chat panel state and `handleChatSubmit` |
| `dashboard_view.dfy` | `DashboardView` | `getStatusColor`, `getSeverityColor`, the pollution label, the map position |

How random draws are modelled:

- A Python `random.choice(list)` is a caller-supplied index below the list's length.
- A `random.randint(a, b)` is a caller-supplied integer in [a, b].
- A JavaScript `Math.random()` is a caller-supplied real `r` with 0 ≤ r < 1, and `Math.floor(r * n) + k` is computed from it exactly. In IEEE doubles, `r * n` for r < 1 also rounds to a value below n, so the index bounds carry over.
- The order in which the program consumes its random stream is not modelled. Each draw is a separate parameter.

Dictionary order: Python dicts (3.7 and later) and `Object.entries` on string keys both iterate in insertion order. The response tables are therefore sequences in source order, and the first match in sequence order wins.

## Model

| member | source | states |
|---|---|---|
| Text.Decimal | app.py:17 | the decimal text of a natural number: non-empty, all digits, a single digit exactly below 10, and its last digit is n mod 10 |
| Text.DecimalInjective | app.py:17 | different numbers have different decimal texts |
| Text.PrefixedDecimalInjective | app.py:17 | ids made of one prefix and a numeral, such as `V{1000 + i}`, are equal only for equal numbers |
| Text.Lower | app.py:116 | `str.lower()` on ASCII: same length, and each character is lower-cased on its own |
| Text.LowerIdempotent | app.py:116 | lower-casing twice gives the same text as lower-casing once |
| Text.Contains | app.py:131 | `key in s` / `s.includes(key)`: the empty key occurs in every text, and a key that occurs is no longer than the text |
| Text.ContainsIffOccurs | app.py:131 | the recursive substring test holds exactly when the key occurs at some position of the text |
| Text.LongKeyAbsent | app.py:131 | a key longer than the text never occurs in it |
| Text.ContainsInLonger | app/page.tsx:134 | a text that contains a factor also contains every key the factor contains |
| Text.TrimStart | app/page.tsx:114 | the result is the input minus a leading run of ECMAScript white space, and it does not start with white space |
| Text.TrimEnd | app/page.tsx:114 | the result is the input minus a trailing run of ECMAScript white space, and it does not end with white space |
| Text.Trim | app/page.tsx:114 | `trim()` strips both ends: the result is no longer than the input and is empty or starts and ends with a non-space character |
| Text.TrimEmptyIffAllSpace | app/page.tsx:114 | `trim()` returns "" exactly when every character is white space or a line terminator |
| Text.IsBlank | app/page.tsx:114 | `!chatInput.trim()` holds exactly when the input consists only of white space |
| KeywordMatch.FirstMatchFrom | app.py:130-133 | scanning from entry `from`: a found entry contains its key and no entry between `from` and it does; not found means no key from `from` on occurs |
| KeywordMatch.FirstMatch | app.py:130-133 | the scan finds the first table entry whose key occurs in the message, or reports that none occurs |
| KeywordMatch.Reply | app.py:129-133 | the chosen reply is the default or the reply of some table entry |
| KeywordMatch.ReplyOfFirstMatch | app.py:129-133 | if entry k is the first entry whose key occurs, the reply is entry k's reply |
| KeywordMatch.ReplyFallbackIffNoKey | app.py:129-133 | when the default differs from every table reply, the reply is the default exactly when no key occurs |
| KeywordMatch.EarlierKeyWins | app.py:130-133 | when the key of entry i occurs, some entry at or before i is the first match, so no later entry decides |
| KeywordMatch.Respond | app.py:129-133 | the `for ... break` loop over the ordered table returns the first-match reply |
| ServerChat.AnswerText | app.py:119-129 | the six reply texts of the `responses` dict and the default `response`, word for word |
| ServerChat.Responses | app.py:119-126 | the response table in dict insertion order: hello, vessels, weather, pollution, alerts, help |
| ServerChat.MessageField | app.py:116 | `request.json.get('message', '')`: the field's value when present, "" otherwise |
| ServerChat.ChatReply | app.py:116-133 | the answer of the first-match rule over `Responses` for the lower-cased message, with the default as fallback |
| ServerChat.ApiChat | app.py:114-135 | the endpoint's response is the text of the first-match answer for the lower-cased `message` field |
| ServerChat.ChatFirstMatchRule | app.py:116-133 | the first key, in the order hello, vessels, weather, pollution, alerts, help, that occurs in the lower-cased message decides the reply; the default comes exactly when no key occurs |
| ServerChat.HelloBeatsHelp | app.py:120-133 | any message containing "hello" gets the greeting, even when "help" also occurs |
| ServerChat.VesselsUnlessHello | app.py:121-133 | "vessels" decides the reply whenever "hello" is absent |
| ServerChat.WeatherBeatsLaterKeys | app.py:122-133 | "weather" beats "pollution", "alerts" and "help" (so "weather help" gets the weather reply) when "hello" and "vessels" are absent |
| ServerChat.MissingMessageGetsDefault | app.py:116-129 | a body without `message` is read as "" and gets the default reply |
| ServerChat.ReplyIgnoresCase | app.py:116 | upper-case letters in the message do not change the reply |
| ServerChat.GreetingExample | app.py:116-120 | "Hello there" gets the greeting |
| ServerChat.VesselsExample | app.py:116-121 | "what about vessels" gets the vessels reply |
| ServerChat.NoKeywordExample | app.py:129 | "xyz" gets the default reply |
| ServerData.VesselRecord | app.py:16-26 | the dict built for index i: id V{1000+i}, name "Vessel " + chr(65+i), and a type and status from their lists |
| ServerData.Fleet | app.py:15-29 | the list of the 15 records in index order |
| ServerData.GenerateVesselData | app.py:11-29 | the appending loop returns exactly the fleet of records 0 .. 14 in index order |
| ServerData.FleetRecords | app.py:13-24 | 15 records; record i has id "V" + (1000+i) and name "Vessel " + chr(65+i), so A .. O; type and status come from their lists |
| ServerData.FleetIdsDistinct | app.py:15-18 | no two generated vessels share an id or a name |
| ServerData.GenerateEnvironmentalData | app.py:41-46 | wind direction in [0, 360], pollution index in [20, 80], biodiversity score in [60, 95], inclusive as with `randint` |
| ServerData.AlertRecord | app.py:54-61 | the dict built for index i: id A{1000+i}, a type and severity from their lists, "Alert message for " + a type, and the vessel id V{1000+offset} |
| ServerData.AlertList | app.py:53-64 | one record per draw, in order |
| ServerData.GenerateAlerts | app.py:49-64 | between 2 and 5 alerts, one per loop iteration, equal to the alert records of the draws in order |
| ServerData.AlertsReferToFleet | app.py:50-60 | alert i has id "A" + (1000+i); its type and severity are in their lists; its message is "Alert message for " followed by an alert type; its vessel id is the id of the generated vessel at its drawn offset, one of V1000 .. V1014 |
| ServerData.ApiAnalytics | app.py:100-112 | 24 traffic values in [10, 50], 24 pollution values in [20, 80], 24 hour labels taken 24 .. 1 hours back, and the three scalars in their ranges |
| ServerData.SumAtLeast | app.py:106 | a sequence whose values are all at least lo sums to at least lo times its length |
| ServerData.TotalVesselsIsNotTrafficSum | app.py:106-109 | `total_vessels` is drawn on its own and is always below the sum of `vessel_traffic`, which is at least 240 |
| DashboardData.ScaledFloor | app/page.tsx:35 | `Math.floor(r * n)` with 0 ≤ r < 1 is an index in [0, n) |
| DashboardData.Pick | app/page.tsx:35-40 | `list[Math.floor(Math.random() * list.length)]` is an element of the list |
| DashboardData.VesselRecord | app/page.tsx:32-42 | the object pushed for index i: id V{1000+i}, name "Vessel " plus letter 65+i, and a type and status from their lists |
| DashboardData.Fleet | app/page.tsx:31-44 | the array of the 12 records in index order |
| DashboardData.GenerateVesselData | app/page.tsx:26-45 | the pushing loop returns exactly the fleet of records 0 .. 11 in index order |
| DashboardData.FleetRecords | app/page.tsx:28-40 | 12 records; record i has id "V" + (1000+i) and name "Vessel " plus letter 65+i, so A .. L; type and status come from their lists |
| DashboardData.FleetIdsDistinct | app/page.tsx:31-33 | no two generated vessels share an id |
| DashboardData.GenerateEnvironmentalData | app/page.tsx:60-61 | pollution index in [20, 79], biodiversity score in [60, 94] |
| DashboardData.EnvironmentRangeAttained | app/page.tsx:60-61 | every value in those ranges comes out of some draws, so the bounds are tight |
| DashboardData.LoopBound | app/page.tsx:69 | each freshly drawn loop bound is in [2, 6] |
| DashboardData.Sector | app/page.tsx:74 | the sector number is in [1, 10] |
| DashboardData.AlertRecord | app/page.tsx:70-77 | the object pushed for index i: id A{1000+i}, a type and severity from their lists, the sector message and a vessel id V{1000+k} with k < 12 |
| DashboardData.AlertCountFrom | app/page.tsx:69 | from iteration i on, the loop stops at the first index not below the bound drawn for it, and that index is at most 6 |
| DashboardData.AlertCount | app/page.tsx:69 | the re-drawn bound always stops the loop after 2 to 6 iterations |
| DashboardData.AlertCountAttained | app/page.tsx:69 | each count from 2 to 6 happens for some bound draws |
| DashboardData.GenerateAlerts | app/page.tsx:64-80 | the loop whose bound is drawn again before each iteration returns 2 to 6 alerts, as many as that rule gives, each the record for its index |
| DashboardData.AlertRecordFields | app/page.tsx:71-76 | alert i has id "A" + (1000+i), a sector in 1 .. 10, a vessel id of one of the 12 generated vessels, and type and severity from their lists |
| DashboardChat.PollutionReply | app/page.tsx:125 | the pollution text with the index interpolated, an index of 0 (falsy) shown as 45 |
| DashboardChat.AlertReply | app/page.tsx:126 | the alert text with the alert count and the first alert's type and severity, falling back to "Weather Warning" and "Medium" |
| DashboardChat.AnswerText | app/page.tsx:120-131 | the five reply texts of `responses` and the default `botResponse`, word for word |
| DashboardChat.Responses | app/page.tsx:120-128 | the response table in property order: vessel, weather, pollution, alert, help |
| DashboardChat.BotReply | app/page.tsx:130-138 | the answer of the first-match rule over `Responses` for the lower-cased input, with the default as fallback |
| DashboardChat.ExchangeKeepsWellFormed | app/page.tsx:116-142 | appending a non-blank user message and a bot message keeps the conversation shape: greeting first, then alternating user and bot messages |
| DashboardChat.ChatPanel.constructor | app/page.tsx:87-94 | the panel starts with the bot greeting alone and an empty input |
| DashboardChat.ChatPanel.SetChatInput | app/page.tsx:643-653 | typing or a suggestion button sets the input and leaves the messages alone |
| DashboardChat.ChatPanel.HandleChatSubmit | app/page.tsx:112-145 | blank input changes nothing; otherwise exactly the user message and then the first-match bot reply are appended, earlier messages stay, and the input is cleared |
| DashboardChat.BotFirstMatchRule | app/page.tsx:120-138 | the first key, in the order vessel, weather, pollution, alert, help, that occurs in the lower-cased input decides the reply; the default comes exactly when none occurs |
| DashboardChat.VesselFirst | app/page.tsx:121-138 | any input containing "vessel" gets the vessel reply |
| DashboardChat.WeatherUnlessVessel | app/page.tsx:123-138 | "weather" decides the reply when "vessel" is absent |
| DashboardChat.PollutionUnlessEarlier | app/page.tsx:125-138 | "pollution" decides the reply when "vessel" and "weather" are absent |
| DashboardChat.AlertBeatsHelp | app/page.tsx:126-138 | "alert" beats "help" when no earlier key occurs |
| DashboardChat.PollutionReplyShowsIndex | app/page.tsx:125 | `|| 45` turns only an index of 0 into 45; a generated index from 20 to 79 is shown as it is; different positive indices give different texts |
| DashboardChat.AlertReplyOfGenerated | app/page.tsx:126 | for a generated first alert the reply names the count and that alert's type and severity, never the fallbacks |
| DashboardChat.AlertReplyWithoutAlerts | app/page.tsx:126 | with no alerts the reply falls back to "Weather Warning" and "Medium" |
| DashboardChat.HelpWithAlertsExample | app/page.tsx:126-138 | "help with alerts" gets the alert reply |
| DashboardChat.SuggestionVessel | app/page.tsx:651-653 | the suggestion "Show vessel status" gets the vessel reply |
| DashboardChat.SuggestionWeather | app/page.tsx:651-653 | the suggestion "Weather conditions" gets the weather reply |
| DashboardChat.SuggestionPollution | app/page.tsx:651-653 | the suggestion "Pollution levels" gets the pollution reply |
| DashboardChat.SuggestionAlert | app/page.tsx:651-653 | the suggestion "Active alerts" gets the alert reply |
| DashboardView.StatusColor | app/page.tsx:147-158 | `getStatusColor`: one of the green, yellow, red and grey badge classes |
| DashboardView.StatusColorTable | app/page.tsx:147-158 | `getStatusColor` is total; it gives grey exactly for values outside the status list, and three different colours for the three known statuses |
| DashboardView.SeverityColor | app/page.tsx:160-171 | `getSeverityColor`: one of the destructive, default and secondary badge variants |
| DashboardView.SeverityColorTable | app/page.tsx:160-171 | `getSeverityColor` is total; "destructive" exactly for High, "secondary" exactly for Low, and "default" for Medium and every unknown value |
| DashboardView.GeneratedVesselsAreColoured | app/page.tsx:147-158 | no generated vessel is drawn grey |
| DashboardView.PollutionLabel | app/page.tsx:468-472 | the label ternary: always one of Good, Moderate and High |
| DashboardView.PollutionLabelMonotone | app/page.tsx:468-472 | a higher index never gets a better label, and the label changes at 40 and at 70 |
| DashboardView.PollutionLabelsAllReachable | app/page.tsx:468-472 | each of Good, Moderate and High is shown for some index the generator can produce |
| DashboardView.MapPosition | app/page.tsx:354-355 | the dot's (left, top) percentages: left between 20 and 80, top at least 20 |
| DashboardView.MapPositionGrid | app/page.tsx:354-355 | left is one of 20, 40, 60, 80 percent; top is 20 plus a multiple of 25 |
| DashboardView.MapPositionInjective | app/page.tsx:354-355 | distinct indices get distinct map positions |
| DashboardView.FleetFitsOnMap | app/page.tsx:354-355 | the 12 generated vessels occupy the rows at 20, 45 and 70 percent |

## Left out

- Flask routing, templates, `jsonify`, HTTP status codes and `PORT` handling. These are framework plumbing. `ApiChat` takes the JSON body as a map of string fields and returns the response text.
- A request whose body is not JSON, whose JSON is not an object (an array, a string, a number, `null`), or whose `message` is not a string. In the code these raise inside Flask or at `.get`/`.lower()`; they are not treated as an empty message. The model only takes objects with string-valued fields.
- The random-number generators and their distributions. Every draw is a parameter with its range, and the order in which the draws are consumed is not modelled.
- Float-valued fields: lat/lng, speed, heading, water quality, wind speed, wave height, visibility, and the dashboard's wind direction. Floating-point arithmetic is out of scope. The one float operation that matters, `Math.floor(r * n)`, is modelled on exact reals.
- Timestamps and hour labels (`datetime`, `Date`, `toLocaleTimeString`). `ApiAnalytics` keeps only how many hours back each of the 24 labels is taken.
- Unicode lower-casing. Only ASCII letters are lower-cased; `str.lower` and `toLowerCase` also change other scripts.
- React hooks, rendering, the 30-second refresh and the one-second `setTimeout` before the bot reply. `HandleChatSubmit` appends the bot reply at once, so it does not model a second submit landing inside that second.
- DashboardChat.PollutionReply: models only an integer pollution index. A null `environmental` cannot reach the panel, because the page renders a loading screen until the data exists.
- The map dots' inline hex colours and the rest of the JSX.
- `static/js/main.js`. It is DOM manipulation, timers and formatting, and it is not part of this model.
