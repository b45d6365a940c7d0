/**
  * The peer support page (src/components/Student/PeerVolunteers.tsx): the
  * chat with a volunteer (`handleStartChat`, `handleSendMessage` and its
  * delayed reply) and `getAvailabilityStatus`, with the day and the time of
  * day as inputs.
  */
module PeerVolunteers {
  import opened Seqs
  import opened Text

  datatype Sender = User | Volunteer

  /** A chat bubble; the timestamp is left out. */
  datatype ChatMessage = ChatMessage(id: int, text: string, sender: Sender)

  /** The opening message of a chat, from the volunteer and naming them. */
  function Greeting(name: string): (m: ChatMessage)
    ensures m.id == 1 && m.sender == Volunteer
    ensures Contains(m.text, name)
  {
    var rest := ". I'm here to listen and support you. How are you feeling today?";
    assert OccursAt(name, name, 0);
    ContainsInContext("Hi! I'm ", name, rest, name);
    ChatMessage(1, "Hi! I'm " + name + rest, Volunteer)
  }

  /** The volunteer's canned replies, one picked at random for each message sent. */
  const Responses: seq<string> := [
    "I understand how you're feeling. Can you tell me more about what's on your mind?",
    "That sounds really challenging. You're not alone in this.",
    "Thank you for sharing that with me. How can I best support you right now?",
    "I'm here to listen. Take your time to express what you're going through.",
    "It's okay to feel this way. What would help you feel a bit better?"
  ]

  /** The user's message appended to the log, numbered one past the log's length. */
  function Sent(log: seq<ChatMessage>, text: string): (r: seq<ChatMessage>)
    ensures |r| == |log| + 1 && r[..|log|] == log
    ensures r[|log|].sender == User && r[|log|].text == text && r[|log|].id == |log| + 1
  {
    log + [ChatMessage(|log| + 1, text, User)]
  }

  /**
    * The reply as the timer writes it: numbered from `sendLength`, the length
    * of the log when the message was sent, not from the log it is appended to.
    */
  function ReplyAsWritten(log: seq<ChatMessage>, sendLength: nat, pick: nat): (r: seq<ChatMessage>)
    requires pick < |Responses|
    ensures |r| == |log| + 1 && r[..|log|] == log
    ensures r[|log|].sender == Volunteer && r[|log|].text in Responses && r[|log|].id == sendLength + 2
  {
    log + [ChatMessage(sendLength + 2, Responses[pick], Volunteer)]
  }

  /**
    * Two messages sent before the first reply arrives: the first reply takes
    * the id of the second message, so two bubbles share the key 3.
    */
  lemma ReplyIdCollides()
    ensures var log := ReplyAsWritten(Sent(Sent([Greeting("Asha")], "hi"), "still there?"), 1, 0);
            |log| == 4 && log[2].sender == User && log[3].sender == Volunteer && log[2].id == log[3].id == 3
  {
  }

  /** The reply numbered one past the log it is appended to. */
  function Reply(log: seq<ChatMessage>, pick: nat): (r: seq<ChatMessage>)
    requires pick < |Responses|
    ensures |r| == |log| + 1 && r[..|log|] == log
    ensures r[|log|].sender == Volunteer && r[|log|].text == Responses[pick] && r[|log|].id == |log| + 1
  {
    log + [ChatMessage(|log| + 1, Responses[pick], Volunteer)]
  }

  /** Message `i` of the log has id `i + 1`. */
  predicate NumberedInOrder(log: seq<ChatMessage>) {
    forall i :: 0 <= i < |log| ==> log[i].id == i + 1
  }

  /** Numbering in order gives every bubble its own key. */
  lemma NumberedIdsDistinct(log: seq<ChatMessage>)
    requires NumberedInOrder(log)
    ensures forall i, j :: 0 <= i < j < |log| ==> log[i].id != log[j].id
  {
  }

  /** Greeting, sending and the corrected reply keep the log numbered in order; the reply as written need not. */
  lemma NumberingKept(log: seq<ChatMessage>, text: string, name: string, pick: nat)
    requires NumberedInOrder(log) && pick < |Responses|
    ensures NumberedInOrder([Greeting(name)])
    ensures NumberedInOrder(Sent(log, text))
    ensures NumberedInOrder(Reply(log, pick))
  {
  }

  /**
    * The chat panel. `pendingSends` holds, for each reply timer still
    * running, oldest first, the length the log had when its message was
    * sent: the number the reply as written is computed from.
    */
  class PeerChat {
    var selectedVolunteer: Option<string>
    var showChat: bool
    var message: string
    var chatMessages: seq<ChatMessage>
    var pendingSends: seq<nat>

    /** The log is numbered in order, and the user never sends a blank message. */
    ghost predicate Valid()
      reads this
    {
      && NumberedInOrder(chatMessages)
      && forall i :: 0 <= i < |chatMessages| && chatMessages[i].sender == User ==> !IsBlank(chatMessages[i].text)
    }

    constructor()
      ensures selectedVolunteer == None && !showChat && message == "" && chatMessages == [] && pendingSends == []
      ensures Valid()
    {
      selectedVolunteer := None;
      showChat := false;
      message := "";
      chatMessages := [];
      pendingSends := [];
    }

    /** `handleStartChat`: selects the volunteer, opens the chat and replaces the log with their greeting. */
    method StartChat(name: string)
      requires Valid()
      modifies this
      ensures Valid()
      ensures selectedVolunteer == Some(name) && showChat
      ensures chatMessages == [Greeting(name)]
      ensures message == old(message) && pendingSends == old(pendingSends)
    {
      selectedVolunteer := Some(name);
      showChat := true;
      chatMessages := [Greeting(name)];
    }

    /** The input box's `onChange`. */
    method SetMessage(text: string)
      modifies this
      ensures message == text
      ensures chatMessages == old(chatMessages) && pendingSends == old(pendingSends)
      ensures selectedVolunteer == old(selectedVolunteer) && showChat == old(showChat)
    {
      message := text;
    }

    /**
      * `handleSendMessage`: a blank input (one whose `Trim` is empty) changes
      * nothing; otherwise the untrimmed input is appended as the user's message, the input is cleared
      * and a reply timer starts.
      */
    method SendMessage()
      requires Valid()
      modifies this
      ensures Valid()
      ensures IsBlank(old(message)) ==>
                chatMessages == old(chatMessages) && message == old(message) && pendingSends == old(pendingSends)
      ensures !IsBlank(old(message)) ==>
                chatMessages == Sent(old(chatMessages), old(message)) && message == "" && pendingSends == old(pendingSends) + [|old(chatMessages)|]
      ensures selectedVolunteer == old(selectedVolunteer) && showChat == old(showChat)
    {
      if IsBlank(message) {
        return;
      }
      chatMessages := Sent(chatMessages, message);
      message := "";
      pendingSends := pendingSends + [|chatMessages| - 1];
    }

    /**
      * The oldest reply timer fires, with the numbering corrected: the
      * volunteer's reply `Responses[pick]` is numbered from the log it lands in.
      */
    method DeliverReply(pick: nat)
      requires Valid() && pendingSends != [] && pick < |Responses|
      modifies this
      ensures Valid()
      ensures chatMessages == Reply(old(chatMessages), pick) && pendingSends == old(pendingSends[1..])
      ensures message == old(message) && selectedVolunteer == old(selectedVolunteer) && showChat == old(showChat)
    {
      chatMessages := Reply(chatMessages, pick);
      pendingSends := pendingSends[1..];
    }

    /**
      * The oldest reply timer fires as the code writes it: the reply is
      * numbered from the log length captured when its message was sent.
      */
    method DeliverReplyAsWritten(pick: nat)
      requires pendingSends != [] && pick < |Responses|
      modifies this
      ensures chatMessages == ReplyAsWritten(old(chatMessages), old(pendingSends[0]), pick)
      ensures pendingSends == old(pendingSends[1..])
      ensures message == old(message) && selectedVolunteer == old(selectedVolunteer) && showChat == old(showChat)
    {
      chatMessages := ReplyAsWritten(chatMessages, pendingSends[0], pick);
      pendingSends := pendingSends[1..];
    }

    /** The close button hides the chat; the log and the selection stay. */
    method CloseChat()
      modifies this
      ensures !showChat
      ensures chatMessages == old(chatMessages) && message == old(message) && pendingSends == old(pendingSends)
      ensures selectedVolunteer == old(selectedVolunteer)
    {
      showChat := false;
    }
  }

  /**
    * A greeting, two messages sent within the reply delay, then the first
    * timer fires: as written the reply repeats the second message's id 3;
    * corrected, the log stays numbered 1 to 4.
    */
  method QuickSends(name: string) returns (asWritten: seq<ChatMessage>, corrected: seq<ChatMessage>)
    ensures |asWritten| == 4 && asWritten[2].sender == User && asWritten[3].sender == Volunteer
    ensures asWritten[2].id == 3 && asWritten[3].id == 3
    ensures |corrected| == 4 && NumberedInOrder(corrected)
  {
    var a := new PeerChat();
    var b := new PeerChat();
    a.StartChat(name);
    b.StartChat(name);
    SendTwo(a);
    SendTwo(b);
    a.DeliverReplyAsWritten(0);
    b.DeliverReply(0);
    asWritten := a.chatMessages;
    corrected := b.chatMessages;
  }

  /** Types and sends `hi`, then `still there?`, before any reply arrives. */
  method SendTwo(chat: PeerChat)
    requires chat.Valid() && |chat.chatMessages| == 1 && chat.pendingSends == []
    modifies chat
    ensures chat.Valid() && |chat.chatMessages| == 3 && chat.pendingSends == [1, 2]
    ensures chat.chatMessages[..1] == old(chat.chatMessages)
    ensures chat.chatMessages[1] == ChatMessage(2, "hi", User) && chat.chatMessages[2] == ChatMessage(3, "still there?", User)
  {
    chat.SetMessage("hi");
    assert !IsSpace(chat.message[0]);
    chat.SendMessage();
    chat.SetMessage("still there?");
    assert !IsSpace(chat.message[0]);
    chat.SendMessage();
  }

  /** A day's hours in a volunteer's schedule; a missing bound is the empty string. */
  datatype Window = Window(start: string, end: string)

  /** A volunteer's weekly schedule, keyed by lower-case day name. */
  type Schedule = map<string, Window>

  datatype Presence = Presence(status: string, color: string)

  /**
    * `getAvailabilityStatus` for the day `day` at the time `now` ("HH:MM"):
    * online when today has both bounds and `now` lies between them, ends
    * included, by string comparison; offline otherwise.
    */
  function AvailabilityStatus(schedule: Schedule, day: string, now: string): (p: Presence)
    ensures p.status == "online" || p.status == "offline"
    ensures p.status == "online" <==>
              && day in schedule && schedule[day].start != "" && schedule[day].end != ""
              && LexLessEq(schedule[day].start, now) && LexLessEq(now, schedule[day].end)
    ensures p.color == "text-green-600" <==> p.status == "online"
    ensures p.status == "offline" ==> p.color == "text-gray-500"
  {
    if day in schedule && schedule[day].start != "" && schedule[day].end != "" then
      var w := schedule[day];
      NotLessIsAtLeast(now, w.start);
      NotLessIsAtLeast(w.end, now);
      if !LexLess(now, w.start) && !LexLess(w.end, now) then Presence("online", "text-green-600")
      else Presence("offline", "text-gray-500")
    else Presence("offline", "text-gray-500")
  }

  /** What a call returns, or the error it throws. */
  datatype Outcome<T> = Returned(value: T) | Thrown(error: string)

  /** The English weekday names in `getDay()` order, Sunday first. */
  const WeekdayNames: seq<string> := ["Sunday", "Monday", "Tuesday", "Wednesday", "Thursday", "Friday", "Saturday"]

  /** The schedule's day keys in the same order. */
  const DayKeys: seq<string> := ["sunday", "monday", "tuesday", "wednesday", "thursday", "friday", "saturday"]

  /**
    * `toLocaleDateString('en-US', { weekday: style })` for day `weekday`
    * (0 is Sunday): the `weekday` option accepts only `long`, `short` and
    * `narrow` (ECMA-402, the `Intl.DateTimeFormat` options); any other value
    * throws a RangeError.
    */
  function WeekdayName(weekday: nat, style: string): (r: Outcome<string>)
    requires weekday < 7
    ensures r.Thrown? <==> style != "long" && style != "short" && style != "narrow"
    ensures r.Thrown? ==> r.error == "RangeError"
    ensures style == "long" ==> r == Returned(WeekdayNames[weekday])
  {
    var name := WeekdayNames[weekday];
    if style == "long" then Returned(name)
    else if style == "short" then Returned(name[..3])
    else if style == "narrow" then Returned(name[..1])
    else Thrown("RangeError")
  }

  /** `getAvailabilityStatus` as written: the day name is asked for with the style `lowercase`. */
  function AvailabilityAsWritten(schedule: Schedule, weekday: nat, now: string): (r: Outcome<Presence>)
    requires weekday < 7
    ensures WeekdayName(weekday, "lowercase").Returned? ==>
              r == Returned(AvailabilityStatus(schedule, WeekdayName(weekday, "lowercase").value, now))
    ensures WeekdayName(weekday, "lowercase").Thrown? ==> r == Thrown(WeekdayName(weekday, "lowercase").error)
  {
    match WeekdayName(weekday, "lowercase")
    case Thrown(e) => Thrown(e)
    case Returned(day) => Returned(AvailabilityStatus(schedule, day, now))
  }

  /** Every call as written throws, on every day, so no volunteer card can render. */
  lemma {:induction false} AvailabilityAlwaysThrows(schedule: Schedule, weekday: nat, now: string)
    requires weekday < 7
    ensures AvailabilityAsWritten(schedule, weekday, now) == Thrown("RangeError")
  {
  }

  /** `getAvailabilityStatus` corrected: the long English name, lower-cased, is the schedule's key. */
  function AvailabilityCorrected(schedule: Schedule, weekday: nat, now: string): (r: Outcome<Presence>)
    requires weekday < 7
    ensures r == Returned(AvailabilityStatus(schedule, DayKeys[weekday], now))
  {
    match WeekdayName(weekday, "long")
    case Thrown(e) => Thrown(e)
    case Returned(day) =>
      LowerWeekdayIsKey(weekday);
      Returned(AvailabilityStatus(schedule, Lower(day), now))
  }

  /** Lower-casing a weekday name gives the schedule key of that day. */
  lemma {:induction false} LowerWeekdayIsKey(weekday: nat)
    requires weekday < 7
    ensures Lower(WeekdayNames[weekday]) == DayKeys[weekday]
  {
    var name := WeekdayNames[weekday];
    assert ToLower(name[0]) == DayKeys[weekday][0];
    assert Lower(name)[1..] == name[1..];
  }

  /** A window that ends before it starts is never online. */
  lemma InvertedWindowOffline(schedule: Schedule, day: string, now: string)
    requires day in schedule && LexLess(schedule[day].end, schedule[day].start)
    ensures AvailabilityStatus(schedule, day, now).status == "offline"
  {
    var w := schedule[day];
    if AvailabilityStatus(schedule, day, now).status == "online" {
      LexLessIrreflexive(w.start);
      if LexLess(w.start, now) && LexLess(now, w.end) {
        LexLessTransitive(w.start, now, w.end);
        LexLessTransitive(w.start, w.end, w.start);
      } else if LexLess(w.start, now) {
        LexLessTransitive(w.start, now, w.start);
      } else if LexLess(now, w.end) {
        LexLessTransitive(now, w.end, now);
      }
    }
  }

  /** A window with both bounds is online at its opening time, when it does not end before it starts. */
  lemma OnlineAtOpening(schedule: Schedule, day: string)
    requires day in schedule && schedule[day].start != "" && schedule[day].end != ""
    requires LexLessEq(schedule[day].start, schedule[day].end)
    ensures AvailabilityStatus(schedule, day, schedule[day].start).status == "online"
  {
  }
}
