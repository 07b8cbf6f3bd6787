/** The `callback_data` strings the chat buttons carry: the fixed prefixes, the
    `is_*` prefix tests, the cancel buttons' `{prefix}{date}_{ticket}` encoding
    and the `split("_")`/`"_".join` decoding the cancel handler applies, and the
    slices that recover a blood group, a date or a time from a pressed button. */
module Callback {
  import opened Wrappers
  import opened Text

  const BloodPrefix: string := "blood_"
  const DatePrefix: string := "date_"
  const TimePrefix: string := "time_"
  const CancelAskPrefix: string := "cancel_ask_"
  const CancelYesPrefix: string := "cancel_yes_"
  const CancelNo: string := "cancel_no"

  predicate IsBlood(data: string) { StartsWith(data, BloodPrefix) }
  predicate IsDate(data: string) { StartsWith(data, DatePrefix) }
  predicate IsTime(data: string) { StartsWith(data, TimePrefix) }
  predicate IsCancelAsk(data: string) { StartsWith(data, CancelAskPrefix) }
  predicate IsCancelYes(data: string) { StartsWith(data, CancelYesPrefix) }

  /** The button data of the blood-group, date and time keyboards. */
  function BloodButton(group: string): string { BloodPrefix + group }
  function DateButton(date: string): string { DatePrefix + date }
  function TimeButton(time: string): string { TimePrefix + time }

  /** `f"{CANCEL_ASK_PREFIX}{date}_{ticket}"`, the button beside a booking. */
  function CancelAskButton(date: string, ticket: string): string {
    CancelAskPrefix + date + "_" + ticket
  }

  /** `f"{CANCEL_YES_PREFIX}{date}_{ticket}"`, the confirming button. */
  function CancelYesButton(date: string, ticket: string): string {
    CancelYesPrefix + date + "_" + ticket
  }

  /** The blood-group handler: rejected unless the data has the blood prefix,
      otherwise the text after the prefix. */
  function SelectedBlood(data: string): (r: Option<string>)
    ensures r.Some? <==> IsBlood(data)
    ensures r.Some? ==> data == BloodPrefix + r.value
  {
    if IsBlood(data) then Some(data[|BloodPrefix|..]) else None
  }

  /** The date handler: the text after the date prefix. */
  function SelectedDate(data: string): (r: Option<string>)
    ensures r.Some? <==> IsDate(data)
    ensures r.Some? ==> data == DatePrefix + r.value
  {
    if IsDate(data) then Some(data[|DatePrefix|..]) else None
  }

  /** `data.split("_", 1)[1]`; `None` where there is no `_` and Python raises
      `IndexError`. */
  function AfterFirstUnderscore(data: string): (r: Option<string>)
    ensures r.Some? <==> '_' in data
  {
    if '_' in data then Some(SplitOnce(data, '_').1) else None
  }

  /** The time handler: rejected unless the data has the time prefix, then the
      text after the first `_`. */
  function SelectedTime(data: string): Option<string> {
    if IsTime(data) then AfterFirstUnderscore(data) else None
  }

  /** The cancel handler's decoding: `parts = data.split("_")`; with at least
      four parts the date is `parts[2]` and the ticket `"_".join(parts[3:])`,
      otherwise the request is refused. */
  function DecodeCancel(data: string): Option<(string, string)> {
    var parts := Split(data, '_');
    if |parts| >= 4 then Some((parts[2], Join(parts[3..], '_'))) else None
  }

  /** No button data passes two of the prefix tests, and the "keep it" button
      passes none of them. */
  lemma PrefixesExclusive(data: string)
    ensures !(IsBlood(data) && IsDate(data)) && !(IsBlood(data) && IsTime(data))
    ensures !(IsDate(data) && IsTime(data))
    ensures !(IsCancelAsk(data) && IsCancelYes(data))
    ensures !(IsCancelAsk(data) && (IsBlood(data) || IsDate(data) || IsTime(data)))
    ensures !(IsCancelYes(data) && (IsBlood(data) || IsDate(data) || IsTime(data)))
    ensures data == CancelNo ==> !IsCancelAsk(data) && !IsCancelYes(data)
  {
    if IsBlood(data) { assert data[0] == data[..|BloodPrefix|][0] == 'b'; }
    if IsDate(data) { assert data[0] == data[..|DatePrefix|][0] == 'd'; }
    if IsTime(data) { assert data[0] == data[..|TimePrefix|][0] == 't'; }
    if IsCancelAsk(data) {
      assert data[0] == data[..|CancelAskPrefix|][0] == 'c';
      assert data[7] == data[..|CancelAskPrefix|][7] == 'a';
    }
    if IsCancelYes(data) {
      assert data[0] == data[..|CancelYesPrefix|][0] == 'c';
      assert data[7] == data[..|CancelYesPrefix|][7] == 'y';
    }
  }

  lemma BloodRoundTrip(group: string)
    ensures SelectedBlood(BloodButton(group)) == Some(group)
  {
    assert (BloodPrefix + group)[..|BloodPrefix|] == BloodPrefix;
    assert (BloodPrefix + group)[|BloodPrefix|..] == group;
  }

  lemma DateRoundTrip(date: string)
    ensures SelectedDate(DateButton(date)) == Some(date)
  {
    assert (DatePrefix + date)[..|DatePrefix|] == DatePrefix;
    assert (DatePrefix + date)[|DatePrefix|..] == date;
  }

  /** Splitting at the first `_` gives back every time text, even one holding
      `_` itself, and for time buttons it is the same as cutting the prefix. */
  lemma TimeRoundTrip(time: string)
    ensures SelectedTime(TimeButton(time)) == Some(time)
  {
    var s := TimeButton(time);
    assert s == "time" + ['_'] + time;
    assert s[..|TimePrefix|] == TimePrefix;
    SplitOnceAfterField("time", '_', time);
  }

  lemma SelectedTimeIsSuffix(data: string)
    ensures SelectedTime(data).Some? <==> IsTime(data)
    ensures IsTime(data) ==> SelectedTime(data) == Some(data[|TimePrefix|..])
  {
    if IsTime(data) {
      assert data == "time" + ['_'] + data[|TimePrefix|..];
      SplitOnceAfterField("time", '_', data[|TimePrefix|..]);
    }
  }

  lemma {:induction false} SplitOnceAfterField(a: string, sep: char, b: string)
    requires sep !in a
    ensures sep in a + [sep] + b
    ensures SplitOnce(a + [sep] + b, sep) == (a, b)
  {
    assert (a + [sep] + b)[|a|] == sep;
    if a == [] {
      assert a + [sep] + b == [sep] + b;
      assert ([sep] + b)[1..] == b;
    } else {
      assert (a + [sep] + b)[1..] == a[1..] + [sep] + b;
      SplitOnceAfterField(a[1..], sep, b);
      assert [a[0]] + a[1..] == a;
    }
  }

  /** What a cancel button's fields split into. */
  lemma SplitCancelButton(word: string, date: string, ticket: string)
    requires '_' !in word && '_' !in date
    ensures Split("cancel" + "_" + word + "_" + date + "_" + ticket, '_')
      == ["cancel", word, date] + Split(ticket, '_')
  {
    var t := date + ['_'] + ticket;
    var w := word + ['_'] + t;
    assert "cancel" + "_" + word + "_" + date + "_" + ticket == "cancel" + ['_'] + w;
    SplitAfterField("cancel", '_', w);
    SplitAfterField(word, '_', t);
    SplitAfterField(date, '_', ticket);
  }

  /** A cancel button decodes to the date and ticket it was made from,
      whatever the ticket holds, provided the date has no `_`. */
  lemma CancelAskRoundTrip(date: string, ticket: string)
    requires '_' !in date
    ensures IsCancelAsk(CancelAskButton(date, ticket))
    ensures DecodeCancel(CancelAskButton(date, ticket)) == Some((date, ticket))
  {
    var s := CancelAskButton(date, ticket);
    assert s[..|CancelAskPrefix|] == CancelAskPrefix;
    assert s == "cancel" + "_" + "ask" + "_" + date + "_" + ticket;
    SplitCancelButton("ask", date, ticket);
    DecodeTail(["cancel", "ask", date], ticket);
  }

  lemma CancelYesRoundTrip(date: string, ticket: string)
    requires '_' !in date
    ensures IsCancelYes(CancelYesButton(date, ticket))
    ensures DecodeCancel(CancelYesButton(date, ticket)) == Some((date, ticket))
  {
    var s := CancelYesButton(date, ticket);
    assert s[..|CancelYesPrefix|] == CancelYesPrefix;
    assert s == "cancel" + "_" + "yes" + "_" + date + "_" + ticket;
    SplitCancelButton("yes", date, ticket);
    DecodeTail(["cancel", "yes", date], ticket);
  }

  lemma DecodeTail(head: seq<string>, ticket: string)
    requires |head| == 3
    ensures var parts := head + Split(ticket, '_');
      |parts| >= 4 && parts[2] == head[2] && Join(parts[3..], '_') == ticket
  {
    var parts := head + Split(ticket, '_');
    assert parts[3..] == Split(ticket, '_');
    JoinSplit(ticket, '_');
  }

  /** Conversely, whatever confirming data the handler accepts is the button
      for the date and ticket it decodes to, and that date holds no `_`: the
      decoding loses nothing. */
  lemma CancelYesDecodesOnlyButtons(data: string)
    requires IsCancelYes(data) && DecodeCancel(data).Some?
    ensures var (date, ticket) := DecodeCancel(data).value;
      '_' !in date && CancelYesButton(date, ticket) == data
  {
    var rest := data[|CancelYesPrefix|..];
    assert data == CancelYesPrefix + rest;
    var parts := Split(rest, '_');
    assert data == "cancel" + ['_'] + ("yes" + ['_'] + rest);
    SplitAfterField("cancel", '_', "yes" + ['_'] + rest);
    SplitAfterField("yes", '_', rest);
    assert Split(data, '_') == ["cancel", "yes"] + parts;
    assert |parts| >= 2;
    var (date, ticket) := DecodeCancel(data).value;
    assert date == parts[0];
    assert Split(data, '_')[3..] == parts[1..];
    assert ticket == Join(parts[1..], '_');
    SplitFieldsHaveNoSep(rest, '_');
    JoinSplit(rest, '_');
    JoinCons(parts, '_');
    assert rest == date + "_" + ticket;
  }

  lemma {:induction false} SplitFieldsHaveNoSep(s: string, sep: char)
    ensures forall i :: 0 <= i < |Split(s, sep)| ==> sep !in Split(s, sep)[i]
  {
    if s != [] {
      SplitFieldsHaveNoSep(s[1..], sep);
    }
  }

  /** The confirmation step: the button beside a booking is decoded, the
      confirming button is built from the decoded fields and decoded again, and
      the ledger is asked to cancel exactly the booking's date and ticket. */
  lemma CancelFlowKeepsBooking(date: string, ticket: string)
    requires '_' !in date
    ensures var asked := DecodeCancel(CancelAskButton(date, ticket));
      asked == Some((date, ticket))
      && DecodeCancel(CancelYesButton(asked.value.0, asked.value.1)) == Some((date, ticket))
  {
    CancelAskRoundTrip(date, ticket);
    CancelYesRoundTrip(date, ticket);
  }

  /** A confirming button whose data has fewer than four `_`-separated parts is
      refused: `cancel_yes_` followed by a text without `_`. */
  lemma ShortCancelRefused(date: string)
    requires '_' !in date
    ensures IsCancelYes(CancelYesPrefix + date)
    ensures DecodeCancel(CancelYesPrefix + date) == None
  {
    var s := CancelYesPrefix + date;
    assert s[..|CancelYesPrefix|] == CancelYesPrefix;
    assert s == "cancel" + ['_'] + ("yes" + ['_'] + date);
    SplitAfterField("cancel", '_', "yes" + ['_'] + date);
    SplitAfterField("yes", '_', date);
    SplitWithoutSep(date, '_');
  }

  lemma {:induction false} SplitWithoutSep(s: string, sep: char)
    requires sep !in s
    ensures Split(s, sep) == [s]
  {
    if s != [] {
      SplitWithoutSep(s[1..], sep);
      assert [s[0]] + s[1..] == s;
    }
  }
}
