/** The conversation sidebar's row helpers: relative time, display name,
    the signed-in user's unread count with its badge, initials and the
    active-row flag. */
module ConversationList {
  import opened Wrappers
  import opened BackendTypes
  import Js
  import Lists

  // ---------------------------------------------------------------------
  // formatTimestamp
  // ---------------------------------------------------------------------

  const MinuteMs: int := 60000
  const HourMs: int := 3600000
  const DayMs: int := 86400000

  /** A relative-time label; `CalendarDate` stands for `toLocaleDateString()` of the instant. */
  datatype TimeLabel = JustNow | Minutes(m: int) | Hours(h: int) | Days(d: int) | CalendarDate(ms: int)

  /** The label for a nanosecond timestamp seen at `nowMs`; the first threshold
      the age falls under decides, and an instant in the future is `JustNow`. */
  function FormatTimestamp(nowMs: int, timestampNs: int): (l: TimeLabel)
    ensures var age := nowMs - Js.NsToMs(timestampNs);
      && (l == JustNow <==> age < MinuteMs)
      && (l.Minutes? <==> MinuteMs <= age < HourMs)
      && (l.Hours? <==> HourMs <= age < DayMs)
      && (l.Days? <==> DayMs <= age < 7 * DayMs)
      && (l.CalendarDate? <==> 7 * DayMs <= age)
      && (l.Minutes? ==> 1 <= l.m < 60 && l.m * MinuteMs <= age < (l.m + 1) * MinuteMs)
      && (l.Hours? ==> 1 <= l.h < 24 && l.h * HourMs <= age < (l.h + 1) * HourMs)
      && (l.Days? ==> 1 <= l.d < 7 && l.d * DayMs <= age < (l.d + 1) * DayMs)
      && (l.CalendarDate? ==> l.ms == Js.NsToMs(timestampNs))
  {
    var date := Js.NsToMs(timestampNs);
    var diffMs := nowMs - date;
    var diffMins := diffMs / MinuteMs;
    var diffHours := diffMs / HourMs;
    var diffDays := diffMs / DayMs;
    if diffMins < 1 then JustNow
    else if diffMins < 60 then Minutes(diffMins)
    else if diffHours < 24 then Hours(diffHours)
    else if diffDays < 7 then Days(diffDays)
    else CalendarDate(date)
  }

  /** The label as the row shows it: a relative label is its count followed by
      the unit letter, and reads back as that count. */
  function LabelText(l: TimeLabel, localeDate: int -> string): (r: string)
    ensures l == JustNow ==> r == "Just now"
    ensures l.Minutes? && l.m >= 0 ==> |r| > 1 && r[|r| - 1] == 'm' && Js.ParseNat(r[..|r| - 1]) == l.m
    ensures l.Hours? && l.h >= 0 ==> |r| > 1 && r[|r| - 1] == 'h' && Js.ParseNat(r[..|r| - 1]) == l.h
    ensures l.Days? && l.d >= 0 ==> |r| > 1 && r[|r| - 1] == 'd' && Js.ParseNat(r[..|r| - 1]) == l.d
    ensures l.CalendarDate? ==> r == localeDate(l.ms)
  {
    match l
    case JustNow => "Just now"
    case Minutes(m) => if m >= 0 then CountWithUnit(m, 'm') else "m"
    case Hours(h) => if h >= 0 then CountWithUnit(h, 'h') else "h"
    case Days(d) => if d >= 0 then CountWithUnit(d, 'd') else "d"
    case CalendarDate(ms) => localeDate(ms)
  }

  /** `${n}` followed by a unit letter. */
  function CountWithUnit(n: nat, unit: char): (r: string)
    ensures |r| > 1 && r[|r| - 1] == unit && Js.ParseNat(r[..|r| - 1]) == n
  {
    Js.ParseNatToString(n);
    var s := Js.NatToString(n) + [unit];
    assert s[..|s| - 1] == Js.NatToString(n);
    s
  }

  /** The coarseness of a label: minutes, hours, days, then a date. */
  function Rank(l: TimeLabel): nat {
    match l
    case JustNow => 0
    case Minutes(_) => 1
    case Hours(_) => 2
    case Days(_) => 3
    case CalendarDate(_) => 4
  }

  /** An older message never gets a finer label than a newer one seen at the same time. */
  lemma FormatTimestampMonotone(nowMs: int, newerNs: int, olderNs: int)
    requires olderNs <= newerNs
    ensures Rank(FormatTimestamp(nowMs, olderNs)) >= Rank(FormatTimestamp(nowMs, newerNs))
  {
    NsToMsMonotone(olderNs, newerNs);
  }

  lemma NsToMsMonotone(a: int, b: int)
    requires a <= b
    ensures Js.NsToMs(a) <= Js.NsToMs(b)
  {
  }

  // ---------------------------------------------------------------------
  // getDisplayName
  // ---------------------------------------------------------------------

  const GroupChatText: string := "Group Chat"
  const UnknownUserText: string := "Unknown User"

  /** A participant other than the signed-in user; with no signed-in
      principal every participant counts as other. */
  function IsOther(principal: Option<string>): string -> bool {
    (p: string) => principal.None? || p != principal.value
  }

  /** The row title: a group's title (or `Group Chat`), else the name of the
      first participant who is not the signed-in user. */
  function DisplayName(c: Conversation, principal: Option<string>): (name: string)
    ensures c.isGroup ==> name == if c.title != "" then c.title else GroupChatText
    ensures !c.isGroup ==>
      var k := Lists.FindIndex(c.participants, IsOther(principal));
      name == if 0 <= k < |c.participantNames| then c.participantNames[k] else UnknownUserText
  {
    if c.isGroup then
      if c.title != "" then c.title else GroupChatText
    else
      var k := Lists.FindIndex(c.participants, IsOther(principal));
      if k != -1 && k < |c.participantNames| then c.participantNames[k] else UnknownUserText
  }

  /** In a direct chat the name shown is that of the first other participant. */
  lemma DisplayNameIsFirstOther(c: Conversation, principal: string, k: nat)
    requires !c.isGroup && k < |c.participants| && k < |c.participantNames|
    requires c.participants[k] != principal
    requires forall j :: 0 <= j < k ==> c.participants[j] == principal
    ensures DisplayName(c, Some(principal)) == c.participantNames[k]
  {
    var i := Lists.FindIndex(c.participants, IsOther(Some(principal)));
    assert IsOther(Some(principal))(c.participants[k]);
  }

  /** A direct chat whose only participants are the signed-in user is `Unknown User`. */
  lemma DisplayNameAlone(c: Conversation, principal: string)
    requires !c.isGroup
    requires forall j :: 0 <= j < |c.participants| ==> c.participants[j] == principal
    ensures DisplayName(c, Some(principal)) == UnknownUserText
  {
    var i := Lists.FindIndex(c.participants, IsOther(Some(principal)));
  }

  // ---------------------------------------------------------------------
  // getUnreadCount and the badge
  // ---------------------------------------------------------------------

  function IsUser(principal: string): UnreadEntry -> bool {
    (e: UnreadEntry) => e.userId == principal
  }

  /** The signed-in user's unread count: the first entry for that user, 0 without one. */
  function UnreadCount(c: Conversation, principal: Option<string>): (n: nat)
    ensures principal.None? ==> n == 0
    ensures principal.Some? && (forall k :: 0 <= k < |c.unreadCounts| ==> c.unreadCounts[k].userId != principal.value)
      ==> n == 0
    ensures principal.Some? ==>
      forall k :: (0 <= k < |c.unreadCounts| && c.unreadCounts[k].userId == principal.value
                   && forall j :: 0 <= j < k ==> c.unreadCounts[j].userId != principal.value)
                  ==> n == c.unreadCounts[k].count
  {
    if principal.None? then 0
    else
      var k := Lists.FindIndex(c.unreadCounts, IsUser(principal.value));
      if k == -1 then 0 else c.unreadCounts[k].count
  }

  /** The badge: none at zero, the count up to 99, `99+` beyond. */
  function UnreadBadge(n: nat): (b: Option<string>)
    ensures b.None? <==> n == 0
    ensures n > 99 ==> b == Some("99+")
    ensures 0 < n <= 99 ==> b == Some(Js.NatToString(n)) && |b.value| <= 2
  {
    if n == 0 then None else if n > 99 then Some("99+") else Some(Js.NatToString(n))
  }

  /** A badge is never wider than three characters. */
  lemma UnreadBadgeShort(n: nat)
    requires n > 0
    ensures |UnreadBadge(n).value| <= 3
  {
  }

  // ---------------------------------------------------------------------
  // getInitials
  // ---------------------------------------------------------------------

  /** `word.charAt(0)` of every part, concatenated. */
  function Heads(parts: seq<string>): string
  {
    if parts == [] then "" else (if parts[0] == [] then "" else [parts[0][0]]) + Heads(parts[1..])
  }

  /** `str.slice(0, 2)`. */
  function Take2(s: string): (r: string)
    ensures |r| == if |s| < 2 then |s| else 2
    ensures forall i :: 0 <= i < |r| ==> r[i] == s[i]
  {
    if |s| <= 2 then s else s[..2]
  }

  /** `name.split(' ').map(word => word.charAt(0)).join('').toUpperCase().slice(0, 2)`:
      the first two word-starting characters, upper-cased. */
  function Initials(name: string): (r: string)
    ensures r == Take2(Js.ToUpper(WordStarts(name)))
    ensures |r| <= 2
  {
    HeadsOfSplit(name);
    Take2(Js.ToUpper(Heads(Js.Split(name, ' '))))
  }

  /** Reference definition: the characters that begin a word, scanning left to
      right; `atStart` says the previous character was a space (or there was none). */
  function WordStartsFrom(s: string, atStart: bool): string
  {
    if s == [] then ""
    else (if atStart && s[0] != ' ' then [s[0]] else "") + WordStartsFrom(s[1..], s[0] == ' ')
  }

  function WordStarts(s: string): string {
    WordStartsFrom(s, true)
  }

  /** The heads of the split are the word starts, and the heads of all parts
      but the first are the word starts after the first character. */
  lemma {:induction false} HeadsOfSplit(s: string)
    ensures Heads(Js.Split(s, ' ')) == WordStartsFrom(s, true)
    ensures Heads(Js.Split(s, ' ')[1..]) == WordStartsFrom(s, false)
  {
    if s != [] {
      HeadsOfSplit(s[1..]);
      var rest := Js.Split(s[1..], ' ');
      if s[0] == ' ' {
        assert Js.Split(s, ' ') == [[]] + rest;
        assert ([[]] + rest)[1..] == rest;
      } else {
        var parts := [[s[0]] + rest[0]] + rest[1..];
        assert Js.Split(s, ' ') == parts;
        assert parts[1..] == rest[1..];
      }
    }
  }

  /** Two words give their two first letters. */
  lemma InitialsOfTwoWords(first: string, last: string)
    requires first != "" && last != "" && ' ' !in first && ' ' !in last
    ensures Initials(first + " " + last) == [Js.UpperChar(first[0]), Js.UpperChar(last[0])]
  {
    var s := first + " " + last;
    assert first + (" " + last) == s;
    WordStartsOfWord(first, true);
    WordStartsOfWord(last, true);
    WordStartsAppend(first, " " + last, true);
    assert (" " + last)[1..] == last;
    assert WordStartsFrom(" " + last, false) == WordStartsFrom(last, true);
    var starts := [first[0], last[0]];
    assert WordStarts(s) == starts;
    var upper := Js.ToUpper(starts);
    assert upper == [Js.UpperChar(first[0]), Js.UpperChar(last[0])];
    assert Take2(upper) == upper;
  }

  /** A word without spaces contributes exactly its first letter (if it begins a word). */
  lemma {:induction false} WordStartsOfWord(w: string, atStart: bool)
    requires w != "" && ' ' !in w
    ensures WordStartsFrom(w, atStart) == if atStart then [w[0]] else ""
  {
    if |w| > 1 {
      assert ' ' !in w[1..] by {
        forall i | 0 <= i < |w[1..]| ensures w[1..][i] != ' ' {
          assert w[1..][i] == w[i + 1];
        }
      }
      WordStartsOfWord(w[1..], false);
    } else {
      assert w[1..] == "";
    }
  }

  /** Scanning a concatenation scans the second part in the state the first left. */
  lemma {:induction false} WordStartsAppend(a: string, b: string, atStart: bool)
    requires a != ""
    ensures WordStartsFrom(a + b, atStart) == WordStartsFrom(a, atStart) + WordStartsFrom(b, a[|a| - 1] == ' ')
  {
    assert (a + b)[0] == a[0];
    assert (a + b)[1..] == a[1..] + b;
    if |a| > 1 {
      WordStartsAppend(a[1..], b, a[0] == ' ');
    }
  }

  // ---------------------------------------------------------------------
  // Rows
  // ---------------------------------------------------------------------

  /** `currentConversation?.id === conversation.id`. */
  predicate IsActive(current: Option<Conversation>, c: Conversation) {
    current.Some? && current.value.id == c.id
  }

  /** When conversation ids are distinct, at most one row is active. */
  lemma AtMostOneActive(convs: seq<Conversation>, current: Option<Conversation>, i: nat, j: nat)
    requires forall a, b :: 0 <= a < b < |convs| ==> convs[a].id != convs[b].id
    requires i < |convs| && j < |convs|
    requires IsActive(current, convs[i]) && IsActive(current, convs[j])
    ensures i == j
  {
  }

  /** The preview line: the last message, or a placeholder when it is empty. */
  function PreviewText(c: Conversation): (t: string)
    ensures c.lastMessage != "" ==> t == c.lastMessage
    ensures c.lastMessage == "" ==> t == "No messages yet"
  {
    if c.lastMessage != "" then c.lastMessage else "No messages yet"
  }
}
