/** The bot's three commands over its two files: `/put_on` records today's
    wear, `/throw_away` archives and clears the log, `/info` lists it. The
    files are the fields of `Store`; the clock and the random emoji choice are
    parameters. */
module Bot {
  import opened Numerals
  import opened Text
  import opened History

  /** The acknowledgement emoji `/put_on` picks one of at random. */
  const AckEmojis: seq<string> := ["👌", "🤝", "👍", "🙌", "✍"]

  const AlreadyMarkedText: string := "За сегодня уже отметил 😉"
  const NewPairNotice: string := "\n\nПора взять новую пару!"
  const EmptyHistoryText: string := "История пуста 😢"

  /** From this many wears on, `/put_on` says it is time for a new pair. */
  const NewPairThreshold: nat := 14

  /** The fixed words of the `/put_on` reply: "Recorded <emoji>", a line
      break, then "you are putting these lenses on for the <ordinal> time". */
  const MarkedWord: string := "Отметил "
  const WearPhrase: string := "Эти линзы ты надеваешь в "
  const TimeWord: string := " раз"

  /** What `/put_on` replies after recording the `count`-th wear. */
  function PutOnMessage(emoji: string, count: nat): string {
    MarkedWord + emoji + "\n" + WearPhrase + Ordinal(count) + TimeWord
    + (if count >= NewPairThreshold then NewPairNotice else "")
  }

  /** The outcome of `/put_on`: the log could not be read (the parse error
      propagates and nothing is sent), today was already recorded, or today
      was recorded as the `count`-th wear and acknowledged with `emoji`. */
  datatype PutOnReply = HistoryUnreadable | AlreadyMarked | Marked(count: nat, emoji: string)

  /** The text sent to the chat for a `/put_on` outcome, if any. */
  function PutOnReplyText(reply: PutOnReply): Option<string> {
    match reply
    case HistoryUnreadable => None
    case AlreadyMarked => Some(AlreadyMarkedText)
    case Marked(count, emoji) => Some(PutOnMessage(emoji, count))
  }

  /** The reply `/put_on` gives when it records the `count`-th wear. */
  function MarkedReply(count: nat, choice: nat): PutOnReply
    requires choice < |AckEmojis|
  {
    Marked(count, AckEmojis[choice])
  }

  /** `/put_on` on a log whose text is `history`: the reply and the log's new
      text. Only the last recorded date is compared with `today`. */
  function PutOnStep(history: string, today: Date, choice: nat): (PutOnReply, string)
    requires choice < |AckEmojis|
  {
    match Load(history)
    case None => (HistoryUnreadable, history)
    case Some(dates) =>
      if |dates| > 0 && dates[|dates| - 1] == today then (AlreadyMarked, history)
      else (MarkedReply(|dates| + 1, choice), Serialize(dates + [today]))
  }

  /** The outcome of `/info`: the log could not be read, it is empty, or it
      holds `count` dates listed in `message`. */
  datatype InfoReply = InfoUnreadable | HistoryEmpty | Report(count: nat, message: string)

  /** The text sent to the chat for an `/info` outcome, if any. */
  function InfoReplyText(reply: InfoReply): Option<string> {
    match reply
    case InfoUnreadable => None
    case HistoryEmpty => Some(EmptyHistoryText)
    case Report(_, message) => Some(message)
  }

  /** The summary line of `/info` for `count` wears. */
  function SummaryLine(count: nat): string {
    "Всего ты надевал данные линзы *" + Cardinal(count) + "*:"
  }

  /** The `no`-th line of the `/info` listing. */
  function Entry(no: nat, d: Date): string {
    Decimal(no) + ") " + FormatDate(d)
  }

  /** The listing of `dates`, numbered from 1; each entry is preceded by a newline. */
  function Listing(dates: seq<Date>): string {
    if dates == [] then ""
    else Listing(dates[..|dates| - 1]) + "\n" + Entry(|dates|, dates[|dates| - 1])
  }

  /** The whole `/info` report for a non-empty log. */
  function InfoMessage(dates: seq<Date>): string {
    SummaryLine(|dates|) + "\n" + Listing(dates)
  }

  /** Neither phrase of a count contains a line break. */
  lemma NumeralsHaveNoNewline(n: nat)
    ensures '\n' !in Ordinal(n) && '\n' !in Cardinal(n)
  {
    var d := Decimal(n);
    assert forall i :: 0 <= i < |d| ==> IsDigit(d[i]);
    assert '\n' !in d;
  }

  /** Two line breaks in a row occur nowhere in `p + "\n" + q` when neither
      part has a line break. */
  lemma NoDoubleNewline(p: string, q: string, i: int)
    requires '\n' !in p && '\n' !in q
    requires 0 <= i && i + 1 < |p + "\n" + q|
    ensures !((p + "\n" + q)[i] == '\n' && (p + "\n" + q)[i + 1] == '\n')
  {
    var s := p + "\n" + q;
    if i < |p| {
      assert s[i] == p[i];
    } else if i > |p| {
      assert s[i] == q[i - |p| - 1];
    } else {
      assert s[i + 1] == q[0];
    }
  }

  /** None of the acknowledgement emoji contains a line break. */
  lemma EmojisHaveNoNewline(emoji: string)
    requires emoji in AckEmojis
    ensures '\n' !in emoji
  {
    assert forall k :: 0 <= k < |AckEmojis| ==> '\n' !in AckEmojis[k];
  }

  /** The reply without the notice has its only line break after the emoji. */
  lemma PutOnMessageShape(emoji: string, count: nat)
    requires emoji in AckEmojis
    ensures var p := MarkedWord + emoji;
            var q := WearPhrase + Ordinal(count) + TimeWord;
            && '\n' !in p && '\n' !in q
            && PutOnMessage(emoji, count) == p + "\n" + q + (if count >= NewPairThreshold then NewPairNotice else "")
  {
    FixedWordsHaveNoNewline();
    EmojisHaveNoNewline(emoji);
    NumeralsHaveNoNewline(count);
    NoNewlineJoin(MarkedWord, emoji);
    NoNewlineJoin(WearPhrase, Ordinal(count));
    NoNewlineJoin(WearPhrase + Ordinal(count), TimeWord);
  }

  /** The fixed words of the `/put_on` reply hold no line break. */
  lemma FixedWordsHaveNoNewline()
    ensures '\n' !in MarkedWord && '\n' !in WearPhrase && '\n' !in TimeWord
  {
  }

  lemma NoNewlineJoin(a: string, b: string)
    requires '\n' !in a && '\n' !in b
    ensures '\n' !in a + b
  {
  }

  /** Below the threshold the reply has no two line breaks in a row, so the
      notice, which starts with two, is not in it. */
  lemma NoNoticeBelowThreshold(emoji: string, count: nat)
    requires emoji in AckEmojis && count < NewPairThreshold
    ensures !Contains(PutOnMessage(emoji, count), NewPairNotice)
  {
    var p := MarkedWord + emoji;
    var q := WearPhrase + Ordinal(count) + TimeWord;
    var msg := PutOnMessage(emoji, count);
    assert msg == p + "\n" + q && '\n' !in p && '\n' !in q by {
      PutOnMessageShape(emoji, count);
      assert p + "\n" + q + "" == p + "\n" + q;
    }
    forall i | 0 <= i <= |msg| - |NewPairNotice|
      ensures !OccursAt(msg, NewPairNotice, i)
    {
      var w := msg[i..i + |NewPairNotice|];
      assert w[0] == msg[i] && w[1] == msg[i + 1];
      assert NewPairNotice[0] == '\n' && NewPairNotice[1] == '\n';
      NoDoubleNewline(p, q, i);
    }
  }

  /** The reply to the `count`-th wear names the count in its ordinal form,
      and carries the new-pair notice exactly when `count` is at least 14. */
  lemma PutOnMessageNotice(emoji: string, count: nat)
    requires emoji in AckEmojis
    ensures Contains(PutOnMessage(emoji, count), Ordinal(count))
    ensures Contains(PutOnMessage(emoji, count), NewPairNotice) <==> count >= NewPairThreshold
  {
    var p := MarkedWord + emoji;
    var q := WearPhrase + Ordinal(count) + TimeWord;
    var tail := if count >= NewPairThreshold then NewPairNotice else "";
    var msg := PutOnMessage(emoji, count);
    PutOnMessageShape(emoji, count);
    assert OccursAt(msg, Ordinal(count), |p| + 1 + |WearPhrase|) by {
      assert msg == p + "\n" + WearPhrase + Ordinal(count) + TimeWord + tail;
    }
    if count >= NewPairThreshold {
      assert OccursAt(msg, NewPairNotice, |p + "\n" + q|);
    } else {
      NoNoticeBelowThreshold(emoji, count);
    }
  }

  /** What one `/put_on` does to a readable log: a repeat of the last day
      changes nothing; any other day is appended, the reply reports the new
      length and the chosen emoji, and the new text reads back as the longer
      log. */
  lemma PutOnOutcome(history: string, dates: seq<Date>, today: Date, choice: nat)
    requires choice < |AckEmojis|
    requires Load(history) == Some(dates)
    ensures |dates| > 0 && dates[|dates| - 1] == today ==>
              PutOnStep(history, today, choice) == (AlreadyMarked, history)
    ensures !(|dates| > 0 && dates[|dates| - 1] == today) ==>
              && PutOnStep(history, today, choice).0 == Marked(|dates| + 1, AckEmojis[choice])
              && Load(PutOnStep(history, today, choice).1) == Some(dates + [today])
  {
    LoadSerialize(dates + [today]);
  }

  /** Putting on twice on the same day: the second `/put_on` reports the
      duplicate and leaves the log's text as the first one left it. */
  lemma PutOnTwice(history: string, today: Date, first: nat, second: nat)
    requires first < |AckEmojis| && second < |AckEmojis|
    requires Load(history).Some?
    ensures PutOnStep(PutOnStep(history, today, first).1, today, second)
            == (AlreadyMarked, PutOnStep(history, today, first).1)
  {
    var dates := Load(history).value;
    PutOnOutcome(history, dates, today, first);
    if !(|dates| > 0 && dates[|dates| - 1] == today) {
      var after := dates + [today];
      PutOnOutcome(PutOnStep(history, today, first).1, after, today, second);
    }
  }

  /** A worked case: with 1 and 2 January 2024 on file, `/put_on` on
      2 January reports the duplicate and leaves the file as it was. */
  lemma DuplicateDayExample(choice: nat)
    requires choice < |AckEmojis|
    ensures var log := Serialize([CalendarDate(1, 1, 2024), CalendarDate(2, 1, 2024)]);
            PutOnStep(log, CalendarDate(2, 1, 2024), choice) == (AlreadyMarked, log)
  {
    var dates: seq<Date> := [CalendarDate(1, 1, 2024), CalendarDate(2, 1, 2024)];
    LoadSerialize(dates);
    PutOnOutcome(Serialize(dates), dates, CalendarDate(2, 1, 2024), choice);
  }

  /** Every emoji choice in `choices` picks one of the acknowledgement emoji. */
  predicate ValidChoices(choices: seq<nat>) {
    forall i :: 0 <= i < |choices| ==> choices[i] < |AckEmojis|
  }

  /** `/put_on` once per day in `days`, the `k`-th call drawing the emoji
      `choices[k]`: the replies and the final text of the log. */
  function PutOnRun(history: string, days: seq<Date>, choices: seq<nat>): (seq<PutOnReply>, string)
    requires |choices| == |days| && ValidChoices(choices)
    decreases days
  {
    if days == [] then ([], history)
    else
      var (reply, text) := PutOnStep(history, days[0], choices[0]);
      var (replies, last) := PutOnRun(text, days[1..], choices[1..]);
      ([reply] + replies, last)
  }

  /** Every day in `days` differs from the one recorded just before it. */
  predicate EachDayNew(dates: seq<Date>, days: seq<Date>)
    decreases days
  {
    days != [] ==>
      && (|dates| > 0 ==> days[0] != dates[|dates| - 1])
      && EachDayNew(dates + [days[0]], days[1..])
  }

  /** The replies to recorded wears counted from `from` on, the `k`-th
      acknowledged with the emoji `choices[k]`. */
  function MarkedReplies(from: nat, choices: seq<nat>): (r: seq<PutOnReply>)
    requires ValidChoices(choices)
    ensures |r| == |choices|
    ensures forall i :: 0 <= i < |choices| ==> r[i] == Marked(from + i, AckEmojis[choices[i]])
    decreases choices
  {
    if choices == [] then [] else [MarkedReply(from, choices[0])] + MarkedReplies(from + 1, choices[1..])
  }

  /** `/put_on` of a day other than the last recorded one, on a readable log. */
  lemma PutOnNewDay(history: string, dates: seq<Date>, today: Date, choice: nat)
    requires choice < |AckEmojis|
    requires Load(history) == Some(dates)
    requires !(|dates| > 0 && dates[|dates| - 1] == today)
    ensures PutOnStep(history, today, choice).0 == MarkedReply(|dates| + 1, choice)
    ensures PutOnStep(history, today, choice).1 == Serialize(dates + [today])
  {
  }

  /** Moving the first element of `b` to the end of `a` keeps `a + b`. */
  lemma MoveFirst<T>(a: seq<T>, b: seq<T>)
    requires b != []
    ensures a + [b[0]] + b[1..] == a + b
  {
    assert [b[0]] + b[1..] == b;
  }

  /** Recording a day that is new each time, starting from any readable log,
      never reports a duplicate; the `k`-th call reports wear number
      `|dates| + k + 1` with the emoji it drew. */
  lemma {:induction false} PutOnRunGrows(history: string, dates: seq<Date>, days: seq<Date>, choices: seq<nat>)
    requires |choices| == |days| && ValidChoices(choices)
    requires Load(history) == Some(dates)
    requires EachDayNew(dates, days)
    ensures PutOnRun(history, days, choices).0 == MarkedReplies(|dates| + 1, choices)
    decreases days
  {
    if days != [] {
      var longer := dates + [days[0]];
      PutOnNewDay(history, dates, days[0], choices[0]);
      assert Load(Serialize(longer)) == Some(longer) by {
        LoadSerialize(longer);
      }
      PutOnRunGrows(Serialize(longer), longer, days[1..], choices[1..]);
    }
  }

  /** After such a run the log holds the old dates followed by all the new
      days, written out afresh, whatever emoji were drawn. */
  lemma {:induction false} PutOnRunLog(history: string, dates: seq<Date>, days: seq<Date>, choices: seq<nat>)
    requires |choices| == |days| && ValidChoices(choices)
    requires Load(history) == Some(dates)
    requires EachDayNew(dates, days)
    ensures PutOnRun(history, days, choices).1 == if days == [] then history else Serialize(dates + days)
    decreases days
  {
    if days != [] {
      var longer := dates + [days[0]];
      PutOnNewDay(history, dates, days[0], choices[0]);
      assert Load(Serialize(longer)) == Some(longer) by {
        LoadSerialize(longer);
      }
      var rest := PutOnRun(Serialize(longer), days[1..], choices[1..]);
      assert PutOnRun(history, days, choices).1 == rest.1;
      PutOnRunLog(Serialize(longer), longer, days[1..], choices[1..]);
      if |days| == 1 {
        assert days == [days[0]];
      } else {
        MoveFirst(dates, days);
      }
    }
  }

  /** After such a run the log reads back as the old dates followed by the
      new days. */
  lemma PutOnRunLoads(history: string, dates: seq<Date>, days: seq<Date>, choices: seq<nat>)
    requires |choices| == |days| && ValidChoices(choices)
    requires Load(history) == Some(dates)
    requires EachDayNew(dates, days)
    ensures Load(PutOnRun(history, days, choices).1) == Some(dates + days)
  {
    PutOnRunLog(history, dates, days, choices);
    if days == [] {
      assert dates + days == dates;
    } else {
      LoadSerialize(dates + days);
    }
  }

  /** No date in `dates` is the same as the one just before it: the only
      repetition `/put_on` itself guards against. */
  predicate NoRepeatedDay(dates: seq<Date>)
    decreases |dates|
  {
    |dates| < 2
    || (dates[|dates| - 2] != dates[|dates| - 1] && NoRepeatedDay(dates[..|dates| - 1]))
  }

  /** `/put_on` on a readable log without a day repeated in a row leaves a
      log that reads back and still has no day repeated in a row. */
  lemma PutOnKeepsNoRepeatedDay(history: string, dates: seq<Date>, today: Date, choice: nat)
    requires choice < |AckEmojis|
    requires Load(history) == Some(dates) && NoRepeatedDay(dates)
    ensures Load(PutOnStep(history, today, choice).1).Some?
    ensures NoRepeatedDay(Load(PutOnStep(history, today, choice).1).value)
  {
    PutOnOutcome(history, dates, today, choice);
    if !(|dates| > 0 && dates[|dates| - 1] == today) {
      var longer := dates + [today];
      assert longer[..|longer| - 1] == dates;
      if |dates| > 0 {
        assert longer[|longer| - 2] == dates[|dates| - 1];
      }
    }
  }

  /** The same over any run of `/put_on` calls, on whatever days and with
      whatever emoji: no day ends up on file twice in a row. */
  lemma {:induction false} PutOnRunKeepsNoRepeatedDay(history: string, dates: seq<Date>, days: seq<Date>, choices: seq<nat>)
    requires |choices| == |days| && ValidChoices(choices)
    requires Load(history) == Some(dates) && NoRepeatedDay(dates)
    ensures Load(PutOnRun(history, days, choices).1).Some?
    ensures NoRepeatedDay(Load(PutOnRun(history, days, choices).1).value)
    decreases days
  {
    if days != [] {
      var text := PutOnStep(history, days[0], choices[0]).1;
      PutOnKeepsNoRepeatedDay(history, dates, days[0], choices[0]);
      assert PutOnRun(history, days, choices).1 == PutOnRun(text, days[1..], choices[1..]).1;
      PutOnRunKeepsNoRepeatedDay(text, Load(text).value, days[1..], choices[1..]);
    }
  }

  /** The guard compares with the last date only: with 1 and 2 January 2024
      on file, `/put_on` on 1 January (a clock set back) records 1 January
      again, two entries apart. */
  lemma ClockBackExample(choice: nat)
    requires choice < |AckEmojis|
    ensures var dates: seq<Date> := [CalendarDate(1, 1, 2024), CalendarDate(2, 1, 2024)];
            var step := PutOnStep(Serialize(dates), CalendarDate(1, 1, 2024), choice);
            && step.0 == Marked(3, AckEmojis[choice])
            && Load(step.1) == Some(dates + [CalendarDate(1, 1, 2024)])
  {
    var dates: seq<Date> := [CalendarDate(1, 1, 2024), CalendarDate(2, 1, 2024)];
    LoadSerialize(dates);
    PutOnOutcome(Serialize(dates), dates, CalendarDate(1, 1, 2024), choice);
  }

  /** The lines of the `/info` report: the summary with the count phrase, an
      empty line, then entry `k` for the `k`-th stored date, in stored order. */
  lemma {:induction false} InfoLines(dates: seq<Date>)
    ensures SplitLines(InfoMessage(dates))
            == [SummaryLine(|dates|), ""] + seq(|dates|, k requires 0 <= k < |dates| => Entry(k + 1, dates[k]))
  {
    var entries := seq(|dates|, k requires 0 <= k < |dates| => Entry(k + 1, dates[k]));
    assert SplitLines(InfoMessage(dates)) == [SummaryLine(|dates|)] + SplitLines(Listing(dates)) by {
      SummaryLineHasNoNewline(|dates|);
      SplitLinesCons(SummaryLine(|dates|), Listing(dates));
    }
    ListingLines(dates);
    assert [SummaryLine(|dates|)] + ([""] + entries) == [SummaryLine(|dates|), ""] + entries;
  }

  lemma SummaryLineHasNoNewline(count: nat)
    ensures '\n' !in SummaryLine(count)
  {
    NumeralsHaveNoNewline(count);
    assert '\n' !in "Всего ты надевал данные линзы *" && '\n' !in "*:";
  }

  lemma {:induction false} ListingLines(dates: seq<Date>)
    ensures SplitLines(Listing(dates))
            == [""] + seq(|dates|, k requires 0 <= k < |dates| => Entry(k + 1, dates[k]))
  {
    if dates != [] {
      var init := dates[..|dates| - 1];
      var last := Entry(|dates|, dates[|dates| - 1]);
      ListingLines(init);
      EntryHasNoNewline(|dates|, dates[|dates| - 1]);
      SplitLinesJoin(Listing(init), last);
      SplitLinesOfLine(last);
      assert seq(|dates|, k requires 0 <= k < |dates| => Entry(k + 1, dates[k]))
          == seq(|init|, k requires 0 <= k < |init| => Entry(k + 1, init[k])) + [last];
    }
  }

  /** The report cut after its first `no - 1` entries, extended by entry
      `no`, is the report cut after `no` entries. */
  lemma ListingPrefix(head: string, dates: seq<Date>, no: nat)
    requires 1 <= no <= |dates|
    ensures head + Listing(dates[..no - 1]) + "\n" + Entry(no, dates[no - 1]) == head + Listing(dates[..no])
  {
    assert dates[..no][..no - 1] == dates[..no - 1];
  }

  lemma EntryHasNoNewline(no: nat, d: Date)
    ensures '\n' !in Entry(no, d)
  {
    var n := Decimal(no);
    assert forall i :: 0 <= i < |n| ==> IsDigit(n[i]);
    FormatDateHasNoNewline(d);
  }

  /** Entry `no` of the listing starts with `no` in decimal and ends with the
      date, which reads back. */
  lemma EntryReadsBack(no: nat, d: Date)
    ensures var e := Entry(no, d);
            && ReadDecimal(e[..|Decimal(no)|]) == no
            && ParseDate(e[|e| - 10..]) == Some(d)
  {
    var e := Entry(no, d);
    assert e[..|Decimal(no)|] == Decimal(no);
    assert e[|e| - 10..] == FormatDate(d);
    DecimalReadsBack(no);
    ParseFormat(d);
  }

  /** The state of the two files. `active` is the log's text; `archive` is
      the text of the archive file, `None` while that file does not exist. */
  class Store {
    var active: string
    var archive: Option<string>

    /** Start-up: the log file is created empty when it is missing. */
    constructor (history: Option<string>, archived: Option<string>)
      ensures active == (if history.Some? then history.value else "")
      ensures archive == archived
    {
      active := if history.Some? then history.value else "";
      archive := archived;
    }

    /** `save_history`: rewrites the log with one line per date. */
    method SaveHistory(dates: seq<Date>)
      modifies this
      ensures active == Serialize(dates)
      ensures archive == old(archive)
    {
      active := "";
      for i := 0 to |dates|
        invariant active == Serialize(dates[..i])
        invariant archive == old(archive)
      {
        SerializeSnoc(dates[..i], dates[i]);
        assert dates[..i + 1] == dates[..i] + [dates[i]];
        active := active + FormatDate(dates[i]) + "\n";
      }
      assert dates[..|dates|] == dates;
    }

    /** `command_put_on` with the clock reading `today` and the random
        emoji choice `choice`: the outcome, and the text sent to the chat. */
    method PutOn(today: Date, choice: nat) returns (reply: PutOnReply, sent: Option<string>)
      requires choice < |AckEmojis|
      modifies this
      ensures (reply, active) == PutOnStep(old(active), today, choice)
      ensures sent == PutOnReplyText(reply)
      ensures archive == old(archive)
    {
      var loaded := Load(active);
      if loaded.None? {
        return HistoryUnreadable, None;
      }
      var dates := loaded.value;
      if |dates| > 0 && dates[|dates| - 1] == today {
        return AlreadyMarked, Some(AlreadyMarkedText);
      }
      dates := dates + [today];
      SaveHistory(dates);
      var day := |dates|;
      var emoji := AckEmojis[choice];
      var msg := MarkedWord + emoji + "\n" + WearPhrase + Ordinal(day) + TimeWord;
      if day >= NewPairThreshold {
        msg := msg + NewPairNotice;
      } else {
        assert msg + "" == msg;
      }
      reply := Marked(day, emoji);
      sent := Some(msg);
    }

    /** `clear_history`: does nothing when the log is empty; otherwise the
        archive (created if missing) is overwritten with the log's text and
        the log is emptied. */
    method ClearHistory()
      modifies this
      ensures old(active) == "" ==> active == old(active) && archive == old(archive)
      ensures old(active) != "" ==> archive == Some(old(active)) && active == ""
    {
      if |active| == 0 {
        return;
      }
      if archive.None? {
        archive := Some("");
      }
      archive := Some(active);
      active := "";
    }

    /** `command_info`: an empty report for an empty log, otherwise the
        summary and one numbered line per date; `sent` is the text sent to
        the chat. */
    method Info() returns (reply: InfoReply, sent: Option<string>)
      ensures sent == InfoReplyText(reply)
      ensures Load(active).None? ==> reply == InfoUnreadable
      ensures Load(active) == Some([]) ==> reply == HistoryEmpty
      ensures Load(active).Some? && Load(active).value != [] ==>
                reply == Report(|Load(active).value|, InfoMessage(Load(active).value))
    {
      var loaded := Load(active);
      if loaded.None? {
        return InfoUnreadable, None;
      }
      var dates := loaded.value;
      if dates == [] {
        return HistoryEmpty, Some(EmptyHistoryText);
      }
      var head := SummaryLine(|dates|) + "\n";
      var msg := head;
      assert dates[..0] == [];
      for no := 1 to |dates| + 1
        invariant msg == head + Listing(dates[..no - 1])
      {
        ListingPrefix(head, dates, no);
        msg := msg + "\n" + Entry(no, dates[no - 1]);
      }
      assert dates[..|dates|] == dates;
      reply := Report(|dates|, msg);
      sent := Some(msg);
    }

    /** `/throw_away` followed by `/info`: whatever the log held, the report
        says the history is empty, and the archive holds the old log's text
        unless that was already empty. */
    method ThrowAwayThenInfo() returns (reply: InfoReply, sent: Option<string>)
      modifies this
      ensures reply == HistoryEmpty && sent == Some(EmptyHistoryText)
      ensures active == ""
      ensures archive == if old(active) == "" then old(archive) else Some(old(active))
    {
      ClearHistory();
      LoadEmpty();
      reply, sent := Info();
    }
  }
}
