/**
 * The assistant endpoint (`POST /api/gpt`): a keyword scan of the user's
 * message that appends one line of live information per recognised intent,
 * then a chat-completion call. The regular expressions are modelled as
 * substring and capture predicates over the lower-cased message (all of them
 * carry the `i` flag except the route digits); the weather, news and
 * exchange-rate lookups and the completion call are network requests and
 * are parameters.
 */
module Assistant {
  import opened Wrappers
  import opened Text
  import opened Listing
  import Entities
  import ChatWindow

  // ---------------------------------------------------------------------------
  // Character classes and captures

  predicate IsLatin(c: char) {
    'a' <= c <= 'z' || 'A' <= c <= 'Z'
  }

  /** `[а-яА-Я]` (without ё and Ё). */
  predicate IsCyrillic(c: char) {
    '\U{0430}' <= c <= '\U{044F}' || '\U{0410}' <= c <= '\U{042F}'
  }

  /** `[А-Яа-яA-Za-z\- ]` */
  predicate InPlaceClass(c: char) {
    IsCyrillic(c) || IsLatin(c) || c == '-' || c == ' '
  }

  /** The letter `в` under the `i` flag. */
  predicate IsV(c: char) {
    c == '\U{0432}' || c == '\U{0412}'
  }

  /** The letter `к` under the `i` flag. */
  predicate IsK(c: char) {
    c == '\U{043A}' || c == '\U{041A}'
  }

  /** The end of the longest run of `cls` characters starting at `i` (a greedy quantifier). */
  function RunEnd(s: string, i: nat, cls: char -> bool): (j: nat)
    requires i <= |s|
    ensures i <= j <= |s|
    decreases |s| - i
  {
    if i < |s| && cls(s[i]) then RunEnd(s, i + 1, cls) else i
  }

  lemma {:induction false} RunEndExact(s: string, i: nat, cls: char -> bool)
    requires i <= |s|
    ensures forall k :: i <= k < RunEnd(s, i, cls) ==> cls(s[k])
    ensures RunEnd(s, i, cls) == |s| || !cls(s[RunEnd(s, i, cls)])
    decreases |s| - i
  {
    if i < |s| && cls(s[i]) {
      RunEndExact(s, i + 1, cls);
    }
  }

  /** Where `/в ([А-Яа-яA-Za-z\- ]+)/i` matches at `i`, its capture. */
  function PlaceAt(m: string, i: nat): Option<string>
    requires i <= |m|
  {
    if i + 2 < |m| && IsV(m[i]) && m[i + 1] == ' ' && InPlaceClass(m[i + 2])
    then Some(m[i + 2..RunEnd(m, i + 2, InPlaceClass)])
    else None
  }

  /** The capture of the leftmost match of `/в ([А-Яа-яA-Za-z\- ]+)/i` at or after `i`. */
  function PlaceFrom(m: string, i: nat): (r: Option<string>)
    requires i <= |m|
    ensures r.Some? ==> r.value != ""
    decreases |m| - i
  {
    if i == |m| then None
    else if PlaceAt(m, i).Some? then PlaceAt(m, i)
    else PlaceFrom(m, i + 1)
  }

  /** The place the user named: the text after the first "в ", up to the first character outside the class. */
  function Place(m: string): Option<string> {
    PlaceFrom(m, 0)
  }

  /** A capture holds letters, hyphens and spaces only. */
  lemma {:induction false} PlaceFromClass(m: string, i: nat)
    requires i <= |m|
    ensures PlaceFrom(m, i).Some? ==> forall k :: 0 <= k < |PlaceFrom(m, i).value| ==> InPlaceClass(PlaceFrom(m, i).value[k])
    decreases |m| - i
  {
    if i < |m| {
      if PlaceAt(m, i).Some? {
        RunEndExact(m, i + 2, InPlaceClass);
      } else {
        PlaceFromClass(m, i + 1);
      }
    }
  }

  /** `cityMatch ? cityMatch[1].trim() : fallback` */
  function PlaceOr(m: string, fallback: string): string {
    match Place(m)
    case Some(p) => Trim(p)
    case None => fallback
  }

  const DefaultCity: string := "Алматы"
  const DefaultCountry: string := "ru"
  const DefaultSchool: string := "школа"

  function City(m: string): string {
    PlaceOr(m, DefaultCity)
  }

  /** `countryMatch[1].trim().toLowerCase().slice(0, 2)`, or `ru`. */
  function Country(m: string): (r: string)
    ensures |r| <= 2
    ensures Place(m).None? ==> r == DefaultCountry
    ensures Place(m).Some? ==> r == JsSlice(Lower(Trim(Place(m).value)), 0, 2)
  {
    match Place(m)
    case Some(p) => JsSlice(Lower(Trim(p)), 0, 2)
    case None => DefaultCountry
  }

  /** The news country is a prefix of the lower-cased city. */
  lemma CountryIsCityPrefix(m: string)
    requires Place(m).Some?
    ensures |Country(m)| == Min(2, |City(m)|) && Country(m) == Lower(City(m))[..|Country(m)|]
  {
  }

  /** The digits of the leftmost `/(\d{1,3})/` match at or after `i`: the first digit and at most two more. */
  function RouteFrom(m: string, i: nat): (r: Option<string>)
    requires i <= |m|
    ensures r.Some? ==> 1 <= |r.value| <= 3
    decreases |m| - i
  {
    if i == |m| then None
    else if IsDigit(m[i]) then Some(m[i..Min(i + 3, RunEnd(m, i, IsDigit))])
    else RouteFrom(m, i + 1)
  }

  function Route(m: string): Option<string> {
    RouteFrom(m, 0)
  }

  /** A route is there exactly when the message has a digit, and it is made of digits. */
  lemma {:induction false} RouteFromExact(m: string, i: nat)
    requires i <= |m|
    ensures RouteFrom(m, i).Some? <==> exists k :: i <= k < |m| && IsDigit(m[k])
    ensures RouteFrom(m, i).Some? ==> AllDigits(RouteFrom(m, i).value)
    decreases |m| - i
  {
    if i < |m| {
      if IsDigit(m[i]) {
        RunEndExact(m, i, IsDigit);
      } else {
        RouteFromExact(m, i + 1);
      }
    }
  }

  predicate LatinAt(m: string, i: nat) {
    i + 3 <= |m| && IsLatin(m[i]) && IsLatin(m[i + 1]) && IsLatin(m[i + 2])
  }

  /** `" к "` at `i`. */
  predicate ToAt(m: string, i: nat) {
    i + 3 <= |m| && m[i] == ' ' && IsK(m[i + 1]) && m[i + 2] == ' '
  }

  /** The two captures of the leftmost match of `/([A-Z]{3}) к ([A-Z]{3})/i` at or after `i`. */
  function CodePairFrom(m: string, i: nat): (r: Option<(string, string)>)
    requires i <= |m|
    ensures r.Some? ==> |r.value.0| == 3 && |r.value.1| == 3
    decreases |m| - i
  {
    if i + 9 > |m| then None
    else if LatinAt(m, i) && ToAt(m, i + 3) && LatinAt(m, i + 6) then Some((m[i..i + 3], m[i + 6..i + 9]))
    else CodePairFrom(m, i + 1)
  }

  function CodePair(m: string): Option<(string, string)> {
    CodePairFrom(m, 0)
  }

  /**
   * The two captures of the leftmost match of `/([а-яА-Я]{3,}) к ([а-яА-Я]{3,})/i`
   * at or after `i`. A greedy run of letters can only be followed by the
   * space at its end, so each capture is a whole run.
   */
  function WordPairFrom(m: string, i: nat): (r: Option<(string, string)>)
    requires i <= |m|
    ensures r.Some? ==> |r.value.0| >= 3 && |r.value.1| >= 3
    decreases |m| - i
  {
    if i == |m| then None
    else
      var j := RunEnd(m, i, IsCyrillic);
      if j - i >= 3 && ToAt(m, j) && RunEnd(m, j + 3, IsCyrillic) - (j + 3) >= 3
      then Some((m[i..j], m[j + 3..RunEnd(m, j + 3, IsCyrillic)]))
      else WordPairFrom(m, i + 1)
  }

  function WordPair(m: string): Option<(string, string)> {
    WordPairFrom(m, 0)
  }

  // ---------------------------------------------------------------------------
  // Intents

  /** Some alternative occurs in `s`. */
  predicate ContainsAny(s: string, alts: seq<string>) {
    alts != [] && (Contains(s, alts[0]) || ContainsAny(s, alts[1..]))
  }

  lemma {:induction false} ContainsAnyExact(s: string, alts: seq<string>)
    ensures ContainsAny(s, alts) <==> exists k :: 0 <= k < |alts| && Contains(s, alts[k])
  {
    if alts != [] {
      ContainsAnyExact(s, alts[1..]);
      assert forall k :: 1 <= k < |alts| ==> alts[1..][k - 1] == alts[k];
    }
  }

  /** `/погод[аеуыи]|weather|температур[аеуыи]/i` */
  const WeatherWords: seq<string> := ["погода", "погоде", "погоду", "погоды", "погоди", "weather",
                                      "температура", "температуре", "температуру", "температуры", "температури"]
  /** `/новост[ьи]/i` */
  const NewsWords: seq<string> := ["новость", "новости"]
  /** The literal alternatives of the currency pattern; its two pair alternatives are `CodePair` and `WordPair`. */
  const CurrencyWords: seq<string> := ["курс", "exchange"]
  const TransportWords: seq<string> := ["автобус", "троллейбус", "маршрутка", "трамвай", "поезд", "train", "bus", "route", "маршрут"]
  const CinemaWords: seq<string> := ["кино", "фильм", "афиша", "cinema", "movie"]
  const BellWords: seq<string> := ["звонк", "расписание звонков", "bell", "school schedule"]

  /** The six intents, in the order the handler tries them. */
  datatype Intent = WeatherIntent | NewsIntent | CurrencyIntent | TransportIntent | CinemaIntent | BellIntent

  const IntentOrder: seq<Intent> := [WeatherIntent, NewsIntent, CurrencyIntent, TransportIntent, CinemaIntent, BellIntent]

  /** Whether the message asks for an intent (the word lists are lower-case, so `i` reads as lower-casing the message). */
  predicate Applies(k: Intent, m: string) {
    var s := Lower(m);
    match k
    case WeatherIntent => ContainsAny(s, WeatherWords)
    case NewsIntent => ContainsAny(s, NewsWords)
    case CurrencyIntent => ContainsAny(s, CurrencyWords) || CodePair(m).Some? || WordPair(m).Some?
    case TransportIntent => ContainsAny(s, TransportWords) && Route(m).Some?
    case CinemaIntent => ContainsAny(s, CinemaWords)
    case BellIntent => ContainsAny(s, BellWords)
  }

  // ---------------------------------------------------------------------------
  // Currency resolution

  /** The fixed map from Russian currency words to codes. */
  function RuCode(w: string): (r: Option<string>)
    ensures r.Some? ==> r.value in {"USD", "KZT", "EUR", "RUB"}
  {
    if w == "доллар" then Some("USD")
    else if w == "тенге" then Some("KZT")
    else if w == "евро" then Some("EUR")
    else if w == "рубль" || w == "рублей" || w == "руб" then Some("RUB")
    else None
  }

  /** `from` and `to` of the exchange-rate lookup. */
  function Currencies(m: string): (r: (string, string))
    ensures CodePair(m).Some? ==> r == (UpperAscii(CodePair(m).value.0), UpperAscii(CodePair(m).value.1))
    ensures CodePair(m).None? && WordPair(m).Some? ==>
              r == (RuCode(Lower(WordPair(m).value.0)).GetOr("USD"), RuCode(Lower(WordPair(m).value.1)).GetOr("KZT"))
    ensures CodePair(m).None? && WordPair(m).None? ==> r == ("USD", "KZT")
  {
    match CodePair(m)
    case Some(p) => (UpperAscii(p.0), UpperAscii(p.1))
    case None =>
      match WordPair(m)
      case Some(p) => (RuCode(Lower(p.0)).GetOr("USD"), RuCode(Lower(p.1)).GetOr("KZT"))
      case None => ("USD", "KZT")
  }

  /** A code pair leaves three upper-case Latin letters on each side. */
  lemma {:induction false} CodePairUpper(m: string, i: nat)
    requires i <= |m| && CodePairFrom(m, i).Some?
    ensures forall k :: 0 <= k < 3 ==> 'A' <= UpperAscii(CodePairFrom(m, i).value.0)[k] <= 'Z'
    ensures forall k :: 0 <= k < 3 ==> 'A' <= UpperAscii(CodePairFrom(m, i).value.1)[k] <= 'Z'
    decreases |m| - i
  {
    if !(LatinAt(m, i) && ToAt(m, i + 3) && LatinAt(m, i + 6)) {
      CodePairUpper(m, i + 1);
    }
  }

  /** Without a code pair, the currencies are always codes from the fixed map (USD and KZT when unknown). */
  lemma WordCurrencies(m: string)
    requires CodePair(m).None?
    ensures Currencies(m).0 in {"USD", "KZT", "EUR", "RUB"} && Currencies(m).1 in {"USD", "KZT", "EUR", "RUB"}
    ensures WordPair(m).Some? && RuCode(Lower(WordPair(m).value.0)).None? ==> Currencies(m).0 == "USD"
    ensures WordPair(m).Some? && RuCode(Lower(WordPair(m).value.1)).None? ==> Currencies(m).1 == "KZT"
  {
  }

  /** A message whose word pair is "доллар" and "евро" (in any case) asks for the dollar-to-euro rate. */
  lemma DollarToEuro(m: string, a: string, b: string)
    requires CodePair(m).None? && WordPair(m) == Some((a, b))
    requires Lower(a) == "доллар" && Lower(b) == "евро"
    ensures Currencies(m) == ("USD", "EUR")
  {
  }

  // ---------------------------------------------------------------------------
  // Enrichment

  /** The three network lookups, as strings they produce (a result line, or one of their fixed error texts). */
  datatype Lookups = Lookups(weather: string -> string, news: string -> string, rate: (string, string) -> string)

  function TransportInfo(route: string, city: string): string {
    "Ближайший транспорт по маршруту " + route + " в городе " + city + " отправляется через 15 минут."
  }

  function CinemaInfo(city: string): string {
    "Сегодня в городе " + city + " идут фильмы: \"Дюна 2\", \"Человек-паук: Через вселенные\", \"Барби\"."
  }

  function BellInfo(school: string): string {
    "Расписание звонков для " + school + ": 1 урок — 8:00-8:45, 2 урок — 8:55-9:40, 3 урок — 9:50-10:35, 4 урок — 10:45-11:30."
  }

  /** The information line an intent contributes. */
  function InfoFor(k: Intent, m: string, lk: Lookups): string {
    match k
    case WeatherIntent => lk.weather(City(m))
    case NewsIntent => lk.news(Country(m))
    case CurrencyIntent => lk.rate(Currencies(m).0, Currencies(m).1)
    case TransportIntent => TransportInfo(Route(m).GetOr(""), City(m))
    case CinemaIntent => CinemaInfo(City(m))
    case BellIntent => BellInfo(PlaceOr(m, DefaultSchool))
  }

  /** What one intent adds to the prompt: `"\n" + info` when the message asks for it. */
  function Piece(k: Intent, m: string, lk: Lookups): string {
    if Applies(k, m) then "\n" + InfoFor(k, m, lk) else ""
  }

  /** `prompt` after `prompt += piece(k)` for every intent `k` of `ks`, in order. */
  function Additions(prompt: string, ks: seq<Intent>, piece: Intent -> string): string {
    if ks == [] then prompt else Additions(prompt, ks[..|ks| - 1], piece) + piece(ks[|ks| - 1])
  }

  /** `Piece` for one message and one set of lookups. */
  function PieceOf(m: string, lk: Lookups): Intent -> string {
    k => Piece(k, m, lk)
  }

  /** The prompt after enrichment: the message, then one line per matched intent. */
  function EnrichedPrompt(m: string, lk: Lookups): string {
    Additions(m, IntentOrder, PieceOf(m, lk))
  }

  lemma AdditionsStep(prompt: string, ks: seq<Intent>, k: Intent, piece: Intent -> string)
    ensures Additions(prompt, ks + [k], piece) == Additions(prompt, ks, piece) + piece(k)
  {
    assert (ks + [k])[..|ks|] == ks;
  }

  /** The fold over the fixed order, spelled out intent by intent. */
  lemma AdditionsInOrder(prompt: string, piece: Intent -> string)
    ensures Additions(prompt, IntentOrder, piece)
            == prompt + piece(WeatherIntent) + piece(NewsIntent) + piece(CurrencyIntent)
               + piece(TransportIntent) + piece(CinemaIntent) + piece(BellIntent)
  {
    var s1 := [WeatherIntent];
    var s2 := s1 + [NewsIntent];
    var s3 := s2 + [CurrencyIntent];
    var s4 := s3 + [TransportIntent];
    var s5 := s4 + [CinemaIntent];
    assert IntentOrder == s5 + [BellIntent];
    assert [] + [WeatherIntent] == s1;
    AdditionsStep(prompt, [], WeatherIntent, piece);
    AdditionsStep(prompt, s1, NewsIntent, piece);
    AdditionsStep(prompt, s2, CurrencyIntent, piece);
    AdditionsStep(prompt, s3, TransportIntent, piece);
    AdditionsStep(prompt, s4, CinemaIntent, piece);
    AdditionsStep(prompt, s5, BellIntent, piece);
  }

  /** Pieces that are all empty leave the prompt as it is. */
  lemma {:induction false} AdditionsEmpty(prompt: string, ks: seq<Intent>, piece: Intent -> string)
    requires forall k :: piece(k) == ""
    ensures Additions(prompt, ks, piece) == prompt
  {
    if ks != [] {
      AdditionsEmpty(prompt, ks[..|ks| - 1], piece);
      assert Additions(prompt, ks, piece) == prompt + "";
    }
  }

  /** Later intents only append: the prompt after a prefix of the intents is a prefix of the final prompt. */
  lemma {:induction false} AdditionsPrefix(prompt: string, ks: seq<Intent>, more: seq<Intent>, piece: Intent -> string)
    ensures StartsWith(Additions(prompt, ks + more, piece), Additions(prompt, ks, piece))
    decreases |more|
  {
    if more == [] {
      assert ks + more == ks;
    } else {
      var front := more[..|more| - 1];
      assert ks + more == (ks + front) + [more[|more| - 1]];
      AdditionsStep(prompt, ks + front, more[|more| - 1], piece);
      AdditionsPrefix(prompt, ks, front, piece);
    }
  }

  /** A message that asks for nothing is sent as it is. */
  lemma NoIntentNoEnrichment(m: string, lk: Lookups)
    requires forall k :: !Applies(k, m)
    ensures EnrichedPrompt(m, lk) == m
  {
    AdditionsEmpty(m, IntentOrder, PieceOf(m, lk));
  }

  /** The first two pieces follow the starting prompt directly. */
  lemma FirstTwoPieces(prompt: string, piece: Intent -> string)
    ensures StartsWith(Additions(prompt, IntentOrder, piece), prompt + piece(WeatherIntent) + piece(NewsIntent))
  {
    var front := [WeatherIntent, NewsIntent];
    assert [] + [WeatherIntent] == [WeatherIntent] && [WeatherIntent] + [NewsIntent] == front;
    AdditionsStep(prompt, [], WeatherIntent, piece);
    AdditionsStep(prompt, [WeatherIntent], NewsIntent, piece);
    AdditionsPrefix(prompt, front, [CurrencyIntent, TransportIntent, CinemaIntent, BellIntent], piece);
    assert front + [CurrencyIntent, TransportIntent, CinemaIntent, BellIntent] == IntentOrder;
  }

  /** The scan is cumulative: when weather and news are both asked for, both lines follow the message, weather first. */
  lemma WeatherThenNews(m: string, lk: Lookups)
    requires Applies(WeatherIntent, m) && Applies(NewsIntent, m)
    ensures StartsWith(EnrichedPrompt(m, lk), m + "\n" + lk.weather(City(m)) + "\n" + lk.news(Country(m)))
  {
    var p := PieceOf(m, lk);
    FirstTwoPieces(m, p);
    assert p(WeatherIntent) == "\n" + lk.weather(City(m));
    assert p(NewsIntent) == "\n" + lk.news(Country(m));
    assert m + p(WeatherIntent) + p(NewsIntent) == m + "\n" + lk.weather(City(m)) + "\n" + lk.news(Country(m));
  }

  /** A transport line is added only when the message names both a vehicle and a route number. */
  lemma TransportNeedsRoute(m: string)
    ensures Applies(TransportIntent, m) ==> (exists k :: 0 <= k < |m| && IsDigit(m[k]))
  {
    RouteFromExact(m, 0);
  }

  // ---------------------------------------------------------------------------
  // The handler

  /**
   * One chat-completion message: the system prompt `{ role: 'system', content: SystemPrompt }`,
   * or `{ role, content }`.
   */
  datatype ChatTurn = SystemTurn | ChatTurn(role: string, content: Option<string>)

  /** The role and content a turn is serialised with. */
  function Serialised(t: ChatTurn): (string, Option<string>) {
    match t
    case SystemTurn => ("system", Some(SystemPrompt))
    case ChatTurn(role, content) => (role, content)
  }

  /** `history` of the request body: absent, something other than an array, or an array of turns. */
  datatype HistoryField = NoHistory | NotAnArray | TurnList(turns: seq<ChatTurn>)

  const SystemPrompt: string := "Ты — умный, дружелюбный и максимально полезный ассистент для образовательной платформы. Отвечай на вопросы максимально подробно, понятно и корректно. Если не знаешь точного ответа или информация может быть устаревшей — честно сообщи об этом. Если вопрос касается погоды, новостей, курсов валют, транспорта, кино, расписания звонков и другой актуальной информации — используй встроенные сервисы. Если в prompt есть свежая информация, используй её для ответа."

  /** `[systemPrompt, ...userMessages]` */
  function Conversation(history: HistoryField, prompt: string): (r: seq<ChatTurn>)
    ensures |r| >= 2 && r[0] == SystemTurn
    ensures history.TurnList? && history.turns != [] ==> r[1..] == history.turns
    ensures !(history.TurnList? && history.turns != []) ==> r[1..] == [ChatTurn("user", Some(prompt))]
  {
    [SystemTurn]
    + (if history.TurnList? && history.turns != [] then history.turns else [ChatTurn("user", Some(prompt))])
  }

  /** With a non-empty history the enriched prompt is discarded: any two prompts give the same conversation. */
  lemma HistoryDiscardsPrompt(turns: seq<ChatTurn>, p1: string, p2: string)
    requires turns != []
    ensures Conversation(TurnList(turns), p1) == Conversation(TurnList(turns), p2)
  {
  }

  /** The chat view's history in the shape it is posted. */
  function Posted(ts: seq<ChatWindow.Turn>): (r: seq<ChatTurn>)
    ensures |r| == |ts|
  {
    if ts == [] then []
    else [ChatTurn(if ts[0].role == ChatWindow.UserRole then "user" else "assistant", ts[0].content)] + Posted(ts[1..])
  }

  /** Every assistant turn the chat view starts carries a non-empty history, so the enrichment never reaches the model. */
  lemma ChatViewRequestsDiscardEnrichment(c: Entities.Chat, before: seq<Entities.Message>, sent: Entities.Message, p: string)
    requires ChatWindow.BotTurn(c, before, sent).Some?
    ensures var h := ChatWindow.RequestOf(ChatWindow.BotTurn(c, before, sent).value).history;
            Conversation(TurnList(Posted(h)), p) == [SystemTurn] + Posted(h)
  {
    ChatWindow.BotHistoryEndsWithSent(c, before, sent);
  }

  /** What the completion call returned: the first choice's content (possibly missing), or an exception. */
  datatype Completion = Content(content: Option<string>) | CallFailed

  datatype ReplyBody = EmptyBody | ErrorReply(error: string) | TextReply(text: string)
  datatype Reply = Reply(status: nat, body: ReplyBody)

  /** The 200 answer: `content || 'Ошибка AI'`. */
  function ReplyText(c: Option<string>): (r: string)
    ensures Truthy(c) ==> r == c.value
    ensures !Truthy(c) ==> r == "Ошибка AI"
  {
    OrElse(c, "Ошибка AI")
  }

  /**
   * The intent cascade: `promptMessage` starts as the message and gains
   * `"\n" + info` for every intent asked for, in the fixed order.
   */
  method Enrich(m: string, lk: Lookups) returns (prompt: string)
    ensures prompt == EnrichedPrompt(m, lk)
  {
    prompt := m;
    prompt := Step(prompt, WeatherIntent, m, lk);
    prompt := Step(prompt, NewsIntent, m, lk);
    prompt := Step(prompt, CurrencyIntent, m, lk);
    prompt := Step(prompt, TransportIntent, m, lk);
    prompt := Step(prompt, CinemaIntent, m, lk);
    prompt := Step(prompt, BellIntent, m, lk);
    AdditionsInOrder(m, PieceOf(m, lk));
  }

  /** One `if (match) { externalInfo = await fetch...(); promptMessage += `\n${externalInfo}`; }` block. */
  method Step(prompt: string, k: Intent, m: string, lk: Lookups) returns (next: string)
    ensures next == prompt + Piece(k, m, lk)
  {
    next := prompt;
    if Applies(k, m) {
      var externalInfo := InfoFor(k, m, lk);
      next := next + "\n" + externalInfo;
    }
  }

  /**
   * `handler`. `message` is the body's `message` field when it is a string,
   * None when it is missing or not a string (`message.match` then throws
   * inside the `try`). `sent` is the message list posted to the completion
   * endpoint, and `complete` stands for that call.
   */
  method Handle(httpMethod: string, message: Option<string>, history: HistoryField, openAiKey: Option<string>,
                lk: Lookups, complete: seq<ChatTurn> -> Completion)
    returns (r: Reply, sent: Option<seq<ChatTurn>>)
    ensures httpMethod != "POST" ==> r == Reply(405, EmptyBody) && sent.None?
    ensures httpMethod == "POST" && !Truthy(openAiKey) ==> r == Reply(500, ErrorReply("No OpenAI API key")) && sent.None?
    ensures httpMethod == "POST" && Truthy(openAiKey) && message.None? ==>
              r == Reply(500, ErrorReply("Ошибка OpenAI API")) && sent.None?
    ensures httpMethod == "POST" && Truthy(openAiKey) && message.Some? ==>
              sent == Some(Conversation(history, EnrichedPrompt(message.value, lk)))
              && (complete(sent.value).CallFailed? ==> r == Reply(500, ErrorReply("Ошибка OpenAI API")))
              && (complete(sent.value).Content? ==> r == Reply(200, TextReply(ReplyText(complete(sent.value).content))))
  {
    if httpMethod != "POST" {
      return Reply(405, EmptyBody), None;
    }
    if !Truthy(openAiKey) {
      return Reply(500, ErrorReply("No OpenAI API key")), None;
    }
    if message.None? {
      return Reply(500, ErrorReply("Ошибка OpenAI API")), None;
    }
    var prompt := Enrich(message.value, lk);
    var messages := Conversation(history, prompt);
    sent := Some(messages);
    match complete(messages)
    case CallFailed =>
      r := Reply(500, ErrorReply("Ошибка OpenAI API"));
    case Content(c) =>
      r := Reply(200, TextReply(ReplyText(c)));
  }
}
