/** The keyword responder used when no generation credential is configured:
    four canned replies tried in a fixed priority order, then a greeting from
    a pool of five. */
module Fallback {
  import opened Text

  const SchedulingReply := "I'd be happy to help you schedule that! Could you please provide the date, time, and who you'd like to meet with?"
  const TimeTrackingReply := "Got it! I can help you with time tracking. Are you looking to clock in, clock out, or check your hours?"
  const OfficeReply := "I can help with office information! What would you like to know about our office hours, location, or contact details?"
  const TakeMessageReply := "I'd be happy to take a message for you. Who is it for and what should I tell them?"

  /** The replies for messages that match no keyword. */
  const GreetingPool: seq<string> := [
    "Hello! I'm RexBot, your AI receptionist assistant. How can I help you today?",
    "Good morning! RexBot here, ready to assist with scheduling, time tracking, or any office needs you have.",
    "Hi there! I'm RexBot, your virtual receptionist. What can I help you with today?",
    "Welcome! RexBot at your service. I can help with appointments, clock-ins, or general office information.",
    "Hello! I'm RexBot, your AI receptionist. How may I assist you today?"
  ]

  const SchedulingKeywords: seq<string> := ["schedule", "meeting", "appointment"]
  const TimeTrackingKeywords: seq<string> := ["clock in", "clock out", "time"]
  const OfficeKeywords: seq<string> := ["office", "hours", "location"]
  const MessageKeywords: seq<string> := ["message", "note"]

  /** Some keyword of the list occurs in `lower`. */
  ghost predicate MentionsAny(lower: string, keywords: seq<string>) {
    exists k :: k in keywords && Contains(lower, k)
  }

  /** The `||` chain of the first branch. */
  predicate MentionsScheduling(lower: string)
    ensures MentionsScheduling(lower) <==> MentionsAny(lower, SchedulingKeywords)
  {
    Contains(lower, "schedule") || Contains(lower, "meeting") || Contains(lower, "appointment")
  }

  /** The `||` chain of the second branch. */
  predicate MentionsTimeTracking(lower: string)
    ensures MentionsTimeTracking(lower) <==> MentionsAny(lower, TimeTrackingKeywords)
  {
    Contains(lower, "clock in") || Contains(lower, "clock out") || Contains(lower, "time")
  }

  /** The `||` chain of the third branch. */
  predicate MentionsOffice(lower: string)
    ensures MentionsOffice(lower) <==> MentionsAny(lower, OfficeKeywords)
  {
    Contains(lower, "office") || Contains(lower, "hours") || Contains(lower, "location")
  }

  /** The `||` chain of the fourth branch. */
  predicate MentionsMessage(lower: string)
    ensures MentionsMessage(lower) <==> MentionsAny(lower, MessageKeywords)
  {
    Contains(lower, "message") || Contains(lower, "note")
  }

  /** True when no category's keyword occurs in the lower-cased message. */
  predicate MatchesNothing(lower: string)
    ensures MatchesNothing(lower) <==>
      !MentionsAny(lower, SchedulingKeywords + TimeTrackingKeywords + OfficeKeywords + MessageKeywords)
  {
    var all := SchedulingKeywords + TimeTrackingKeywords + OfficeKeywords + MessageKeywords;
    assert forall k :: k in all <==>
      k in SchedulingKeywords || k in TimeTrackingKeywords || k in OfficeKeywords || k in MessageKeywords;
    !MentionsScheduling(lower) && !MentionsTimeTracking(lower) && !MentionsOffice(lower) && !MentionsMessage(lower)
  }

  /** The branch of the if/else chain a lower-cased message takes. */
  datatype Category = Scheduling | TimeTracking | OfficeInfo | TakeMessage | General

  /** The first category, in priority order, whose keywords occur in `lower`. */
  function Classify(lower: string): (c: Category)
    ensures c == Scheduling <==> MentionsScheduling(lower)
    ensures c == TimeTracking <==> !MentionsScheduling(lower) && MentionsTimeTracking(lower)
    ensures c == OfficeInfo <==> !MentionsScheduling(lower) && !MentionsTimeTracking(lower) && MentionsOffice(lower)
    ensures c == TakeMessage <==> !MentionsScheduling(lower) && !MentionsTimeTracking(lower)
                                  && !MentionsOffice(lower) && MentionsMessage(lower)
    ensures c == General <==> MatchesNothing(lower)
  {
    if MentionsScheduling(lower) then Scheduling
    else if MentionsTimeTracking(lower) then TimeTracking
    else if MentionsOffice(lower) then OfficeInfo
    else if MentionsMessage(lower) then TakeMessage
    else General
  }

  /** The canned reply for a category; `pick` stands for the random pool index. */
  function ReplyText(c: Category, pick: nat): (r: string)
    requires pick < |GreetingPool|
    ensures c == General ==> r in GreetingPool
  {
    match c
    case Scheduling => SchedulingReply
    case TimeTracking => TimeTrackingReply
    case OfficeInfo => OfficeReply
    case TakeMessage => TakeMessageReply
    case General => GreetingPool[pick]
  }

  /** The fallback reply to `message`: the category of its lower-cased form decides. */
  function FallbackReply(message: string, pick: nat): (r: string)
    requires pick < |GreetingPool|
    ensures var l := LowerAscii(message);
      && (MentionsScheduling(l) ==> r == SchedulingReply)
      && (!MentionsScheduling(l) && MentionsTimeTracking(l) ==> r == TimeTrackingReply)
      && (!MentionsScheduling(l) && !MentionsTimeTracking(l) && MentionsOffice(l) ==> r == OfficeReply)
      && (!MentionsScheduling(l) && !MentionsTimeTracking(l) && !MentionsOffice(l) && MentionsMessage(l)
          ==> r == TakeMessageReply)
      && (MatchesNothing(l) ==> r == GreetingPool[pick] && r in GreetingPool)
  {
    ReplyText(Classify(LowerAscii(message)), pick)
  }

  /** The reply depends only on the lower-cased message. */
  lemma FallbackIgnoresCase(message: string, pick: nat)
    requires pick < |GreetingPool|
    ensures FallbackReply(LowerAscii(message), pick) == FallbackReply(message, pick)
  {
    LowerAsciiIdempotent(message);
  }

  /** A scheduling keyword, written in any letter case, wins over every later
      category: "Meeting" beats "time". */
  lemma SchedulingWins(message: string, v: string, pick: nat)
    requires pick < |GreetingPool|
    requires Contains(message, v) && LowerAscii(v) in SchedulingKeywords
    ensures FallbackReply(message, pick) == SchedulingReply
  {
    ContainsLowered(message, v);
    assert MentionsAny(LowerAscii(message), SchedulingKeywords);
  }

  /** A time-tracking keyword, written in any letter case, wins when no
      scheduling keyword occurs. */
  lemma TimeTrackingWins(message: string, v: string, pick: nat)
    requires pick < |GreetingPool|
    requires !MentionsScheduling(LowerAscii(message))
    requires Contains(message, v) && LowerAscii(v) in TimeTrackingKeywords
    ensures FallbackReply(message, pick) == TimeTrackingReply
  {
    ContainsLowered(message, v);
    assert MentionsAny(LowerAscii(message), TimeTrackingKeywords);
  }

  /** A request such as "Can you schedule a meeting with John at 3 PM?" gets the
      scheduling offer, although "time" or "note" may follow the keyword. */
  lemma ScheduleRequestExample(before: string, after: string, pick: nat)
    requires pick < |GreetingPool|
    ensures FallbackReply(before + "schedule" + after, pick) == SchedulingReply
  {
    ContainsInfix(before, "schedule", after);
    LowerAsciiFixesLower("schedule");
    SchedulingWins(before + "schedule" + after, "schedule", pick);
  }

  /** Shouting works too: "MEETING TOMORROW?" gets the scheduling offer. */
  lemma UpperCaseMeetingExample(before: string, after: string, pick: nat)
    requires pick < |GreetingPool|
    ensures FallbackReply(before + "MEETING" + after, pick) == SchedulingReply
  {
    ContainsInfix(before, "MEETING", after);
    assert LowerAscii("MEETING") == "meeting";
    SchedulingWins(before + "MEETING" + after, "MEETING", pick);
  }

  /** A plain greeting matches no category, so it gets the pool reply. */
  lemma HelloMatchesNothing()
    ensures MatchesNothing(LowerAscii("hello"))
  {
    var m := "hello";
    assert IsLower(m);
    LowerAsciiFixesLower(m);
    assert m[1..] == "ello" && m[1..][1..] == "llo";
    assert !Contains(m, "time") && !Contains(m, "note");
  }

  /** "hello" gets the greeting at the supplied index. */
  lemma HelloGetsGreeting(pick: nat)
    requires pick < |GreetingPool|
    ensures FallbackReply("hello", pick) == GreetingPool[pick]
  {
    HelloMatchesNothing();
  }
}
