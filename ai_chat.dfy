/**
  * The support chat (src/components/Chat/AIChat.tsx): crisis-keyword
  * detection, the reply policy, and the message log with its crisis alert
  * and typing flags.
  *
  * The greeting, crisis and default replies and the keyword lists come
  * from a data file that is not part of this model; they are a parameter.
  * The typing delay becomes an explicit delivery step, the random pick an
  * index supplied by the caller, and `Date.now()` a number supplied by the
  * caller.
  */
module AIChat {
  import opened Seqs
  import opened Text
  import opened LanguageContext

  /**
    * A table of the data file, keyed by language: the English entry, and
    * the Hindi and Tamil entries when present.
    */
  datatype PerLanguage<T> = PerLanguage(english: T, hindi: Option<T>, tamil: Option<T>)

  /** The parts of the chatbot data the chat reads. */
  datatype ChatbotData = ChatbotData(
    greeting: PerLanguage<string>,
    crisis: PerLanguage<string>,
    defaultReply: PerLanguage<string>,
    crisisKeywords: PerLanguage<seq<string>>)

  function Entry<T>(table: PerLanguage<T>, language: Language): Option<T> {
    match language
    case English => Some(table.english)
    case Hindi => table.hindi
    case Tamil => table.tamil
  }

  /** `table[language] || table.english` for a text: a missing or empty entry falls back to English. */
  function TextFor(table: PerLanguage<string>, language: Language): (r: string)
    ensures Entry(table, language).Some? && Entry(table, language).value != "" ==> r == Entry(table, language).value
    ensures Entry(table, language).None? || Entry(table, language).value == "" ==> r == table.english
  {
    match Entry(table, language)
    case Some(text) => if text != "" then text else table.english
    case None => table.english
  }

  /** `table[language] || table.english` for a list: only a missing list falls back, since an empty array is truthy. */
  function KeywordsFor(table: PerLanguage<seq<string>>, language: Language): (r: seq<string>)
    ensures Entry(table, language).Some? ==> r == Entry(table, language).value
    ensures Entry(table, language).None? ==> r == table.english
  {
    match Entry(table, language)
    case Some(list) => list
    case None => table.english
  }

  /** `keywords.some(k => lowerMessage.includes(k.toLowerCase()))`. */
  function SomeKeywordIn(lowerMessage: string, keywords: seq<string>): (r: bool)
    ensures r <==> exists i :: 0 <= i < |keywords| && Contains(lowerMessage, Lower(keywords[i]))
  {
    if keywords == [] then false
    else if Contains(lowerMessage, Lower(keywords[0])) then true
    else
      var r := SomeKeywordIn(lowerMessage, keywords[1..]);
      assert forall i :: 1 <= i < |keywords| ==> keywords[1..][i - 1] == keywords[i];
      r
  }

  /** `detectCrisisKeywords`: the lower-cased message contains a lower-cased keyword of the language's list. */
  function Detect(data: ChatbotData, language: Language, message: string): (r: bool)
    ensures r <==> exists k :: k in KeywordsFor(data.crisisKeywords, language) && Contains(Lower(message), Lower(k))
  {
    SomeKeywordIn(Lower(message), KeywordsFor(data.crisisKeywords, language))
  }

  /** Detection ignores letter case. */
  lemma DetectIgnoresCase(data: ChatbotData, language: Language, m1: string, m2: string)
    requires SameUpToCase(m1, m2)
    ensures Detect(data, language, m1) == Detect(data, language, m2)
  {
    LowerUpToCase(m1, m2);
  }

  /** A message that triggers detection still does with any text around it. */
  lemma {:induction false} DetectInContext(data: ChatbotData, language: Language, pre: string, message: string, post: string)
    requires Detect(data, language, message)
    ensures Detect(data, language, pre + message + post)
  {
    var k :| k in KeywordsFor(data.crisisKeywords, language) && Contains(Lower(message), Lower(k));
    LowerAppend(pre + message, post);
    LowerAppend(pre, message);
    ContainsInContext(Lower(pre), Lower(message), Lower(post), Lower(k));
  }

  /** An empty keyword matches every message. */
  lemma EmptyKeywordMatchesAll(data: ChatbotData, language: Language, message: string)
    requires "" in KeywordsFor(data.crisisKeywords, language)
    ensures Detect(data, language, message)
  {
    EmptyIsContained(Lower(message));
  }

  /** The fixed English replies that follow the default reply. */
  const EnglishReplies: seq<string> := [
    "I hear you. Mental health challenges are common among college students. Would you like to talk about what specific concerns you have?",
    "It's brave of you to reach out. Can you tell me more about what's been troubling you lately?",
    "Thank you for sharing. Have you considered speaking with one of our counselors? They're specially trained to help with these feelings.",
    "Your feelings are valid. Would you like me to suggest some coping strategies or connect you with resources?"
  ]

  /** The fixed Hindi replies. */
  const HindiReplies: seq<string> := [
    "मैं आपकी बात सुन रहा हूं। कॉलेज के छात्रों में मानसिक स्वास्थ्य की चुनौतियां आम हैं। क्या आप अपनी विशिष्ट चिंताओं के बारे में बात करना चाहेंगे?",
    "आपका संपर्क करना साहस की बात है। क्या आप मुझे बता सकते हैं कि हाल ही में आपको क्या परेशान कर रहा है?",
    "साझा करने के लिए धन्यवाद। क्या आपने हमारे सलाहकारों से बात करने पर विचार किया है?",
    "आपकी भावनाएं वैध हैं। क्या आप चाहेंगे कि मैं कुछ सामना करने की रणनीतियां सुझाऊं?"
  ]

  /** The fixed Tamil replies. */
  const TamilReplies: seq<string> := [
    "நான் உங்கள் பேச்சைக் கேட்கிறேன். கல்லூரி மாணவர்களிடையே மன அழுத்தம் பொதுவானது. உங்கள் குறிப்பிட்ட கவலைகளைப் பற்றி பேச விரும்புகிறீர்களா?",
    "தொடர்பு கொள்வது தைரியம். சமீபத்தில் உங்களை என்ன தொந்தரவு செய்கிறது என்று சொல்ல முடியுமா?",
    "பகிர்ந்ததற்கு நன்றி। எங்கள் ஆலோசகர்களுடன் பேச நீங்கள் யோசித்திருக்கிறீர்களா?",
    "உங்கள் உணர்வுகள் சரியானவை. சில சமாளிக்கும் உத்திகளை பரிந்துரைக்கட்டுமா?"
  ]

  /** The hard-coded reply lists of the three languages. */
  datatype FixedPools = FixedPools(english: seq<string>, hindi: seq<string>, tamil: seq<string>)

  const Pools: FixedPools := FixedPools(EnglishReplies, HindiReplies, TamilReplies)

  /** The reply pool of a language: the fixed Hindi or Tamil replies, or the default reply followed by the English ones. */
  function PoolOf(data: ChatbotData, pools: FixedPools, language: Language): seq<string> {
    match language
    case Hindi => pools.hindi
    case Tamil => pools.tamil
    case English => [TextFor(data.defaultReply, English)] + pools.english
  }

  function ReplyPool(data: ChatbotData, language: Language): (pool: seq<string>)
    ensures |pool| == if language == English then 5 else 4
    ensures language == English ==> pool[0] == TextFor(data.defaultReply, English) && pool[1..] == EnglishReplies
    ensures language == Hindi ==> pool == HindiReplies
    ensures language == Tamil ==> pool == TamilReplies
  {
    PoolOf(data, Pools, language)
  }

  /**
    * `generateBotResponse` without its alert side effect: the crisis reply
    * when detection fires, otherwise the pool entry at `pick`.
    */
  function BotReply(data: ChatbotData, pools: FixedPools, language: Language, message: string, pick: nat): (r: string)
    requires pick < |PoolOf(data, pools, language)|
    ensures Detect(data, language, message) ==> r == TextFor(data.crisis, language)
    ensures !Detect(data, language, message) ==> r in PoolOf(data, pools, language) && r == PoolOf(data, pools, language)[pick]
  {
    if Detect(data, language, message) then TextFor(data.crisis, language)
    else PoolOf(data, pools, language)[pick]
  }

  datatype MessageType = UserMessage | BotMessage | CrisisMessage

  /** A chat message; its timestamp is left out. */
  datatype Message = Message(id: string, kind: MessageType, content: string, language: Language)

  /** The log's first message: the greeting in the chat's language, else in English. */
  function Greeting(data: ChatbotData, language: Language): (m: Message)
    ensures m.kind == BotMessage && m.id == "1" && m.language == language
    ensures m.content == TextFor(data.greeting, language)
  {
    Message("1", BotMessage, TextFor(data.greeting, language), language)
  }

  predicate IsUserMessage(m: Message) {
    m.kind == UserMessage
  }

  predicate IsReply(m: Message) {
    m.kind != UserMessage
  }

  /**
    * The reply a message draws: of type crisis exactly when detection fires,
    * with the text `generateBotResponse` gives.
    */
  function ReplyMessage(data: ChatbotData, pools: FixedPools, id: string, text: string, language: Language, pick: nat): (m: Message)
    requires pick < |PoolOf(data, pools, language)|
    ensures m.kind == CrisisMessage <==> Detect(data, language, text)
    ensures m.kind != UserMessage
    ensures m.content == BotReply(data, pools, language, text, pick)
  {
    Message(id, if Detect(data, language, text) then CrisisMessage else BotMessage, BotReply(data, pools, language, text, pick), language)
  }

  /**
    * The chat component. `pending` holds the messages sent and not yet
    * answered, each with the language at the time it was sent, in the
    * order their reply timers will fire.
    */
  class ChatSession {
    const data: ChatbotData
    /** The fixed reply pools the session draws from. */
    const pools: FixedPools
    var language: Language
    var messages: seq<Message>
    var input: string
    var showCrisisAlert: bool
    var isTyping: bool
    var pending: seq<(string, Language)>

    /**
      * The log begins with the greeting, and every user message after it is
      * either answered by a reply or still pending.
      */
    ghost predicate Valid()
      reads this
    {
      && |messages| >= 1
      && messages[0].kind == BotMessage && messages[0].id == "1"
      && CountWhere(messages[1..], IsUserMessage) == CountWhere(messages[1..], IsReply) + |pending|
    }

    constructor(data: ChatbotData, language: Language)
      ensures this.data == data && this.language == language && pools == Pools
      ensures messages == [Greeting(data, language)]
      ensures input == "" && !showCrisisAlert && !isTyping && pending == []
      ensures Valid()
    {
      this.data := data;
      pools := Pools;
      this.language := language;
      messages := [Greeting(data, language)];
      input := "";
      showCrisisAlert := false;
      isTyping := false;
      pending := [];
    }

    /** The input box's `onChange`. */
    method SetInput(text: string)
      modifies this
      ensures input == text
      ensures messages == old(messages) && pending == old(pending)
      ensures showCrisisAlert == old(showCrisisAlert) && isTyping == old(isTyping) && language == old(language)
    {
      input := text;
    }

    /** The provider switching the active language; the log is kept. */
    method SwitchLanguage(l: Language)
      modifies this
      ensures language == l
      ensures messages == old(messages) && pending == old(pending) && input == old(input)
      ensures showCrisisAlert == old(showCrisisAlert) && isTyping == old(isTyping)
    {
      language := l;
    }

    /** The send button is enabled for non-blank input while no reply is being typed. */
    function SendEnabled(): (r: bool)
      reads this
      ensures r <==> Trim(input) != [] && !isTyping
    {
      !IsBlank(input) && !isTyping
    }

    /**
      * `handleSendMessage`, up to the typing delay (the button or the Enter
      * key, which is not blocked while typing): blank input changes nothing;
      * otherwise the untrimmed input is appended as a user message with id
      * `now`, the input is cleared and a reply becomes pending.
      */
    method SendMessage(now: nat)
      requires Valid()
      modifies this
      ensures Valid()
      ensures IsBlank(old(input)) ==>
                messages == old(messages) && input == old(input) && pending == old(pending) && isTyping == old(isTyping)
      ensures !IsBlank(old(input)) ==>
                && messages == old(messages) + [Message(NatToString(now), UserMessage, old(input), language)]
                && input == ""
                && isTyping
                && pending == old(pending) + [(old(input), language)]
      ensures showCrisisAlert == old(showCrisisAlert) && language == old(language)
    {
      if IsBlank(input) {
        return;
      }
      var sent := Message(NatToString(now), UserMessage, input, language);
      CountWhereAppend(messages[1..], [sent], IsUserMessage);
      CountWhereAppend(messages[1..], [sent], IsReply);
      assert (messages + [sent])[1..] == messages[1..] + [sent];
      messages := messages + [sent];
      pending := pending + [(input, language)];
      input := "";
      isTyping := true;
    }

    /**
      * The typing delay of the oldest pending message ends: its reply, with
      * id `now + 1`, is appended; a crisis raises the alert; typing stops.
      */
    method DeliverReply(now: nat, pick: nat)
      requires Valid() && pending != []
      requires pick < |PoolOf(data, pools, pending[0].1)|
      modifies this
      ensures Valid()
      ensures var (text, l) := old(pending[0]);
              messages == old(messages) + [ReplyMessage(data, pools, NatToString(now + 1), text, l, pick)]
      ensures pending == old(pending[1..])
      ensures showCrisisAlert == (old(showCrisisAlert) || Detect(data, old(pending[0].1), old(pending[0].0)))
      ensures !isTyping
      ensures input == old(input) && language == old(language)
    {
      var (text, l) := pending[0];
      var reply := ReplyMessage(data, pools, NatToString(now + 1), text, l, pick);
      if Detect(data, l, text) {
        showCrisisAlert := true;
      }
      CountWhereAppend(messages[1..], [reply], IsUserMessage);
      CountWhereAppend(messages[1..], [reply], IsReply);
      assert (messages + [reply])[1..] == messages[1..] + [reply];
      messages := messages + [reply];
      pending := pending[1..];
      isTyping := false;
    }

    /** The alert's Dismiss button: the only way to lower the alert. */
    method Dismiss()
      modifies this
      ensures !showCrisisAlert
      ensures messages == old(messages) && pending == old(pending) && input == old(input)
      ensures isTyping == old(isTyping) && language == old(language)
    {
      showCrisisAlert := false;
    }
  }
}
