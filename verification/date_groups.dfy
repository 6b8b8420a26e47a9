/** The screen's grouping of the message list under calendar-date headings
    (`groupedMessages` in chat-home.tsx). The locale formatter
    `toLocaleDateString` is the parameter `dateKey`, and the current time is the
    parameter `now`. */
module DateGroups {
  import opened Wrappers
  import opened Messages

  /** The heading text a timestamp is filed under. */
  type DateKey = string

  /** One entry of the grouping object: a heading and its messages. */
  datatype DateGroup = DateGroup(date: DateKey, messages: seq<Message>)

  /** The date key of a message: its own creation time, or `now` when it has none. */
  function KeyOf(m: Message, now: Timestamp, dateKey: Timestamp -> DateKey): (k: DateKey)
    ensures m.createdAt.Some? ==> k == dateKey(m.createdAt.value)
    ensures m.createdAt.None? ==> k == dateKey(now)
  {
    dateKey(m.createdAt.GetOr(now))
  }

  /** The date key of every message, in message order. */
  function DateKeys(msgs: seq<Message>, now: Timestamp, dateKey: Timestamp -> DateKey): (ks: seq<DateKey>)
    ensures |ks| == |msgs|
    ensures forall i :: 0 <= i < |msgs| ==> ks[i] == KeyOf(msgs[i], now, dateKey)
  {
    if |msgs| == 0 then []
    else DateKeys(msgs[..|msgs| - 1], now, dateKey) + [KeyOf(msgs[|msgs| - 1], now, dateKey)]
  }

  /** The headings of a grouping, in order. */
  function Dates(gs: seq<DateGroup>): (ds: seq<DateKey>)
    ensures |ds| == |gs|
    ensures forall i {:trigger ds[i]} :: 0 <= i < |gs| ==> ds[i] == gs[i].date
  {
    seq(|gs|, i requires 0 <= i < |gs| => gs[i].date)
  }

  /** No heading occurs twice. */
  predicate DistinctDates(gs: seq<DateGroup>)
  {
    forall i, j :: 0 <= i < j < |gs| ==> gs[i].date != gs[j].date
  }

  /** One step of the reduce: push `m` onto the group keyed `k`, creating that
      group at the end when the key is new. */
  function AddToGroups(gs: seq<DateGroup>, k: DateKey, m: Message): seq<DateGroup>
    decreases |gs|
  {
    if |gs| == 0 then [DateGroup(k, [m])]
    else if gs[0].date == k then [gs[0].(messages := gs[0].messages + [m])] + gs[1..]
    else [gs[0]] + AddToGroups(gs[1..], k, m)
  }

  /** A known key adds no group; a new key opens one at the end. */
  lemma {:induction false} AddToGroupsLength(gs: seq<DateGroup>, k: DateKey, m: Message)
    ensures k in Dates(gs) ==> |AddToGroups(gs, k, m)| == |gs|
    ensures k !in Dates(gs) ==>
              |AddToGroups(gs, k, m)| == |gs| + 1 && AddToGroups(gs, k, m)[|gs|] == DateGroup(k, [m])
    decreases |gs|
  {
    if |gs| > 0 && gs[0].date != k {
      var tail := gs[1..];
      AddToGroupsLength(tail, k, m);
      assert k in Dates(gs) <==> k in Dates(tail) by {
        assert Dates(gs) == [gs[0].date] + Dates(tail);
      }
      assert AddToGroups(gs, k, m) == [gs[0]] + AddToGroups(tail, k, m);
    } else if |gs| > 0 {
      assert Dates(gs)[0] == k;
    }
  }

  /** Every existing group keeps its place and heading. */
  lemma {:induction false} AddToGroupsKeepsDates(gs: seq<DateGroup>, k: DateKey, m: Message)
    ensures |AddToGroups(gs, k, m)| >= |gs|
    ensures forall i :: 0 <= i < |gs| ==> AddToGroups(gs, k, m)[i].date == gs[i].date
    decreases |gs|
  {
    if |gs| > 0 && gs[0].date != k {
      var tail := gs[1..];
      AddToGroupsKeepsDates(tail, k, m);
      var r := AddToGroups(gs, k, m);
      var rest := AddToGroups(tail, k, m);
      assert r == [gs[0]] + rest;
      forall i | 0 < i < |gs|
        ensures r[i].date == gs[i].date
      {
        assert r[i] == rest[i - 1] && gs[i] == tail[i - 1];
      }
    }
  }

  /** Only the group keyed `k` grows, by `m` at its end. */
  lemma {:induction false} AddToGroupsMessages(gs: seq<DateGroup>, k: DateKey, m: Message)
    requires DistinctDates(gs)
    ensures |AddToGroups(gs, k, m)| >= |gs|
    ensures forall i :: 0 <= i < |gs| ==>
              AddToGroups(gs, k, m)[i].messages
              == if gs[i].date == k then gs[i].messages + [m] else gs[i].messages
    decreases |gs|
  {
    AddToGroupsKeepsDates(gs, k, m);
    var r := AddToGroups(gs, k, m);
    if |gs| > 0 && gs[0].date == k {
      assert r == [gs[0].(messages := gs[0].messages + [m])] + gs[1..];
      forall i | 0 < i < |gs|
        ensures r[i] == gs[i] && gs[i].date != k
      {
      }
    } else if |gs| > 0 {
      var tail := gs[1..];
      assert DistinctDates(tail);
      AddToGroupsMessages(tail, k, m);
      var rest := AddToGroups(tail, k, m);
      assert r == [gs[0]] + rest;
      forall i | 0 < i < |gs|
        ensures r[i].messages == if gs[i].date == k then gs[i].messages + [m] else gs[i].messages
      {
        assert r[i] == rest[i - 1] && gs[i] == tail[i - 1];
      }
    }
  }

  /** The three facts above, together. */
  lemma AddToGroupsShape(gs: seq<DateGroup>, k: DateKey, m: Message)
    requires DistinctDates(gs)
    ensures var r := AddToGroups(gs, k, m);
      && (k in Dates(gs) ==> |r| == |gs|)
      && (k !in Dates(gs) ==> |r| == |gs| + 1 && r[|gs|] == DateGroup(k, [m]))
      && (forall i :: 0 <= i < |gs| ==> r[i].date == gs[i].date)
      && (forall i :: 0 <= i < |gs| ==>
            r[i].messages == if gs[i].date == k then gs[i].messages + [m] else gs[i].messages)
  {
    AddToGroupsLength(gs, k, m);
    AddToGroupsKeepsDates(gs, k, m);
    AddToGroupsMessages(gs, k, m);
  }

  /** The headings after one step: unchanged for a known key, extended by a
      new one; so they stay distinct. */
  lemma AddToGroupsDates(gs: seq<DateGroup>, k: DateKey, m: Message)
    requires DistinctDates(gs)
    ensures Dates(AddToGroups(gs, k, m)) == if k in Dates(gs) then Dates(gs) else Dates(gs) + [k]
    ensures DistinctDates(AddToGroups(gs, k, m))
  {
    var r := AddToGroups(gs, k, m);
    AddToGroupsLength(gs, k, m);
    AddToGroupsKeepsDates(gs, k, m);
    if k in Dates(gs) {
      SameDates(r, gs);
    } else {
      NewDateAtEnd(r, gs, k);
    }
  }

  /** Groupings of one length with the same heading at every position have
      the same headings. */
  lemma SameDates(r: seq<DateGroup>, gs: seq<DateGroup>)
    requires DistinctDates(gs) && |r| == |gs|
    requires forall i :: 0 <= i < |gs| ==> r[i].date == gs[i].date
    ensures Dates(r) == Dates(gs) && DistinctDates(r)
  {
    assert forall i :: 0 <= i < |gs| ==> Dates(r)[i] == Dates(gs)[i];
  }

  /** A grouping that extends `gs`'s headings by one new heading `k`. */
  lemma NewDateAtEnd(r: seq<DateGroup>, gs: seq<DateGroup>, k: DateKey)
    requires DistinctDates(gs) && k !in Dates(gs)
    requires |r| == |gs| + 1 && r[|gs|].date == k
    requires forall i :: 0 <= i < |gs| ==> r[i].date == gs[i].date
    ensures Dates(r) == Dates(gs) + [k] && DistinctDates(r)
  {
    var expected := Dates(gs) + [k];
    forall i | 0 <= i < |r|
      ensures Dates(r)[i] == expected[i]
    {
    }
    forall i | 0 <= i < |gs|
      ensures r[i].date != k
    {
      assert Dates(gs)[i] == gs[i].date;
    }
  }

  /** `messages.reduce(...)`: the grouping built by folding the messages from
      the first to the last. */
  function GroupByDate(msgs: seq<Message>, now: Timestamp, dateKey: Timestamp -> DateKey): seq<DateGroup>
    decreases |msgs|
  {
    if |msgs| == 0 then []
    else
      var m := msgs[|msgs| - 1];
      AddToGroups(GroupByDate(msgs[..|msgs| - 1], now, dateKey), KeyOf(m, now, dateKey), m)
  }

  // ---------------------------------------------------------------------
  // Reference definitions the grouping is compared against.
  // ---------------------------------------------------------------------

  /** The keys of `ks` in order of first appearance, each once. */
  ghost function FirstAppearances(ks: seq<DateKey>): seq<DateKey>
  {
    if |ks| == 0 then []
    else
      var d := FirstAppearances(ks[..|ks| - 1]);
      if ks[|ks| - 1] in d then d else d + [ks[|ks| - 1]]
  }

  /** The messages of `msgs` whose date key is `k`, in their original order. */
  ghost function OnDate(msgs: seq<Message>, k: DateKey, now: Timestamp, dateKey: Timestamp -> DateKey): seq<Message>
  {
    if |msgs| == 0 then []
    else
      var before := OnDate(msgs[..|msgs| - 1], k, now, dateKey);
      if KeyOf(msgs[|msgs| - 1], now, dateKey) == k then before + [msgs[|msgs| - 1]] else before
  }

  /** The messages of a grouping, group after group. */
  ghost function Flatten(gs: seq<DateGroup>): seq<Message>
  {
    if |gs| == 0 then [] else gs[0].messages + Flatten(gs[1..])
  }

  /** The number of messages across a grouping. */
  ghost function TotalSize(gs: seq<DateGroup>): nat
  {
    if |gs| == 0 then 0 else |gs[0].messages| + TotalSize(gs[1..])
  }

  /** Equal keys never have a different key between them: every date's
      messages form one run. */
  ghost predicate Contiguous(ks: seq<DateKey>)
  {
    forall i, j, l :: 0 <= i < j < l < |ks| ==> NoGap(ks, i, j, l)
  }

  /** If positions `i` and `l` share a key, so does `j` between them. */
  ghost predicate NoGap(ks: seq<DateKey>, i: nat, j: nat, l: nat)
    requires i < j < l < |ks|
  {
    ks[i] == ks[l] ==> ks[j] == ks[i]
  }

  /** `a` appears in `ks` at a position before any occurrence of `b`. */
  ghost predicate AppearsBefore(ks: seq<DateKey>, a: DateKey, b: DateKey)
  {
    exists p :: 0 <= p < |ks| && ks[p] == a && b !in ks[..p]
  }

  // ---------------------------------------------------------------------
  // Lemmas about the reference definitions.
  // ---------------------------------------------------------------------

  lemma {:induction false} FirstAppearancesMembers(ks: seq<DateKey>)
    ensures forall k :: k in FirstAppearances(ks) <==> k in ks
    ensures forall i, j :: 0 <= i < j < |FirstAppearances(ks)| ==>
              FirstAppearances(ks)[i] != FirstAppearances(ks)[j]
    decreases |ks|
  {
    if |ks| > 0 {
      var init := ks[..|ks| - 1];
      FirstAppearancesMembers(init);
      assert ks == init + [ks[|ks| - 1]];
    }
  }

  /** Keys listed by `FirstAppearances` are in the order of their first
      occurrence in `ks`. */
  lemma {:induction false} FirstAppearancesOrdered(ks: seq<DateKey>)
    ensures forall i, j :: 0 <= i < j < |FirstAppearances(ks)| ==>
              AppearsBefore(ks, FirstAppearances(ks)[i], FirstAppearances(ks)[j])
    decreases |ks|
  {
    if |ks| > 0 {
      var init := ks[..|ks| - 1];
      var x := ks[|ks| - 1];
      var d := FirstAppearances(init);
      FirstAppearancesOrdered(init);
      FirstAppearancesMembers(init);
      var d' := FirstAppearances(ks);
      forall i, j | 0 <= i < j < |d'|
        ensures AppearsBefore(ks, d'[i], d'[j])
      {
        if j < |d| {
          assert d'[i] == d[i] && d'[j] == d[j];
          assert AppearsBefore(init, d[i], d[j]);
          var p :| 0 <= p < |init| && init[p] == d[i] && d[j] !in init[..p];
          assert ks[p] == d[i] && ks[..p] == init[..p];
        } else {
          assert d' == d + [x] && d'[j] == x && x !in init;
          assert d'[i] == d[i] && d[i] in init;
          var p :| 0 <= p < |init| && init[p] == d[i];
          assert ks[p] == d[i];
          assert ks[..p] == init[..p];
          assert x !in init[..p];
        }
      }
    }
  }

  lemma {:induction false} OnDateEmptyWhenAbsent(msgs: seq<Message>, k: DateKey, now: Timestamp, dateKey: Timestamp -> DateKey)
    requires k !in DateKeys(msgs, now, dateKey)
    ensures OnDate(msgs, k, now, dateKey) == []
    decreases |msgs|
  {
    if |msgs| > 0 {
      var init := msgs[..|msgs| - 1];
      assert DateKeys(msgs, now, dateKey) == DateKeys(init, now, dateKey) + [KeyOf(msgs[|msgs| - 1], now, dateKey)];
      OnDateEmptyWhenAbsent(init, k, now, dateKey);
    }
  }

  // ---------------------------------------------------------------------
  // What the grouping computes.
  // ---------------------------------------------------------------------

  lemma FirstAppearancesSnoc(ks: seq<DateKey>, k: DateKey)
    ensures FirstAppearances(ks + [k]) == if k in FirstAppearances(ks) then FirstAppearances(ks) else FirstAppearances(ks) + [k]
  {
    assert (ks + [k])[..|ks|] == ks;
  }

  lemma OnDateSnoc(msgs: seq<Message>, m: Message, k: DateKey, now: Timestamp, dateKey: Timestamp -> DateKey)
    ensures OnDate(msgs + [m], k, now, dateKey)
            == OnDate(msgs, k, now, dateKey) + (if KeyOf(m, now, dateKey) == k then [m] else [])
  {
    assert (msgs + [m])[..|msgs|] == msgs;
  }

  lemma DateKeysSnoc(msgs: seq<Message>, m: Message, now: Timestamp, dateKey: Timestamp -> DateKey)
    ensures DateKeys(msgs + [m], now, dateKey) == DateKeys(msgs, now, dateKey) + [KeyOf(m, now, dateKey)]
  {
    assert (msgs + [m])[..|msgs|] == msgs;
  }

  /** The headings of the grouping are the date keys in order of first
      appearance, each once. */
  lemma {:induction false} GroupDatesAreFirstAppearances(msgs: seq<Message>, now: Timestamp, dateKey: Timestamp -> DateKey)
    ensures Dates(GroupByDate(msgs, now, dateKey)) == FirstAppearances(DateKeys(msgs, now, dateKey))
    ensures DistinctDates(GroupByDate(msgs, now, dateKey))
    decreases |msgs|
  {
    if |msgs| > 0 {
      var init := msgs[..|msgs| - 1];
      var m := msgs[|msgs| - 1];
      assert msgs == init + [m];
      GroupDatesAreFirstAppearances(init, now, dateKey);
      GroupByDateSnoc(init, m, now, dateKey);
      DateKeysSnoc(init, m, now, dateKey);
      FirstAppearancesSnoc(DateKeys(init, now, dateKey), KeyOf(m, now, dateKey));
      AddToGroupsDates(GroupByDate(init, now, dateKey), KeyOf(m, now, dateKey), m);
    }
  }

  /** Each group holds exactly the messages with its key, in their original
      order. */
  lemma {:induction false} GroupMessagesAreOnDate(msgs: seq<Message>, now: Timestamp, dateKey: Timestamp -> DateKey)
    ensures forall i :: 0 <= i < |GroupByDate(msgs, now, dateKey)| ==>
              GroupByDate(msgs, now, dateKey)[i].messages
              == OnDate(msgs, GroupByDate(msgs, now, dateKey)[i].date, now, dateKey)
    decreases |msgs|
  {
    if |msgs| > 0 {
      var init := msgs[..|msgs| - 1];
      var m := msgs[|msgs| - 1];
      var k := KeyOf(m, now, dateKey);
      var gs := GroupByDate(init, now, dateKey);
      var r := GroupByDate(msgs, now, dateKey);
      assert msgs == init + [m];
      GroupMessagesAreOnDate(init, now, dateKey);
      GroupDatesAreFirstAppearances(init, now, dateKey);
      GroupByDateSnoc(init, m, now, dateKey);
      AddToGroupsShape(gs, k, m);
      forall i | 0 <= i < |r|
        ensures r[i].messages == OnDate(msgs, r[i].date, now, dateKey)
      {
        OnDateSnoc(init, m, r[i].date, now, dateKey);
        if i == |gs| {
          FirstAppearancesMembers(DateKeys(init, now, dateKey));
          OnDateEmptyWhenAbsent(init, k, now, dateKey);
        }
      }
    }
  }

  /** The grouping has one group per distinct date key, in order of first
      appearance, and each group holds exactly the messages with its key, in
      their original order. */
  lemma GroupByDateSpec(msgs: seq<Message>, now: Timestamp, dateKey: Timestamp -> DateKey)
    ensures DistinctDates(GroupByDate(msgs, now, dateKey))
    ensures Dates(GroupByDate(msgs, now, dateKey)) == FirstAppearances(DateKeys(msgs, now, dateKey))
    ensures forall i :: 0 <= i < |GroupByDate(msgs, now, dateKey)| ==>
              GroupByDate(msgs, now, dateKey)[i].messages
              == OnDate(msgs, GroupByDate(msgs, now, dateKey)[i].date, now, dateKey)
  {
    GroupDatesAreFirstAppearances(msgs, now, dateKey);
    GroupMessagesAreOnDate(msgs, now, dateKey);
  }

  /** Every message lies in exactly one group: the one headed by its own date
      key (the key of `now` when it has no creation time). Headings are
      distinct and each key of the input heads a group. */
  lemma EachMessageInItsDateGroup(msgs: seq<Message>, now: Timestamp, dateKey: Timestamp -> DateKey)
    ensures var r := GroupByDate(msgs, now, dateKey);
      && DistinctDates(r)
      && (forall m :: m in msgs ==> KeyOf(m, now, dateKey) in Dates(r))
      && (forall m, i :: m in msgs && 0 <= i < |r| ==>
            (m in r[i].messages <==> r[i].date == KeyOf(m, now, dateKey)))
      && (forall m :: m in msgs && m.createdAt.None? ==> KeyOf(m, now, dateKey) == dateKey(now))
  {
    var r := GroupByDate(msgs, now, dateKey);
    var ks := DateKeys(msgs, now, dateKey);
    GroupByDateSpec(msgs, now, dateKey);
    FirstAppearancesMembers(ks);
    forall m | m in msgs
      ensures KeyOf(m, now, dateKey) in Dates(r)
    {
      var j :| 0 <= j < |msgs| && msgs[j] == m;
      assert ks[j] == KeyOf(m, now, dateKey);
    }
    forall m, i | m in msgs && 0 <= i < |r|
      ensures m in r[i].messages <==> r[i].date == KeyOf(m, now, dateKey)
    {
      OnDateMembers(msgs, r[i].date, now, dateKey);
    }
  }

  /** A message is filed under `k` exactly when it is in the list and keyed `k`. */
  lemma {:induction false} OnDateMembers(msgs: seq<Message>, k: DateKey, now: Timestamp, dateKey: Timestamp -> DateKey)
    ensures forall m :: m in OnDate(msgs, k, now, dateKey) <==> m in msgs && KeyOf(m, now, dateKey) == k
    decreases |msgs|
  {
    if |msgs| > 0 {
      var init := msgs[..|msgs| - 1];
      OnDateMembers(init, k, now, dateKey);
      assert msgs == init + [msgs[|msgs| - 1]];
    }
  }

  lemma {:induction false} TotalSizeAdd(gs: seq<DateGroup>, k: DateKey, m: Message)
    ensures TotalSize(AddToGroups(gs, k, m)) == TotalSize(gs) + 1
    decreases |gs|
  {
    if |gs| > 0 && gs[0].date != k {
      var r := AddToGroups(gs, k, m);
      TotalSizeAdd(gs[1..], k, m);
      assert r[1..] == AddToGroups(gs[1..], k, m);
    } else if |gs| > 0 {
      assert AddToGroups(gs, k, m)[1..] == gs[1..];
    }
  }

  /** No message is lost or duplicated: the group sizes add up to the length
      of the message list. */
  lemma {:induction false} GroupSizesSumToLength(msgs: seq<Message>, now: Timestamp, dateKey: Timestamp -> DateKey)
    ensures TotalSize(GroupByDate(msgs, now, dateKey)) == |msgs|
    decreases |msgs|
  {
    if |msgs| > 0 {
      var init := msgs[..|msgs| - 1];
      var m := msgs[|msgs| - 1];
      GroupSizesSumToLength(init, now, dateKey);
      TotalSizeAdd(GroupByDate(init, now, dateKey), KeyOf(m, now, dateKey), m);
    }
  }

  /** Groups come in the order their dates first appear in the message list
      (the insertion order of the grouping object's keys), not in calendar order. */
  lemma GroupsInFirstAppearanceOrder(msgs: seq<Message>, now: Timestamp, dateKey: Timestamp -> DateKey)
    ensures var r := GroupByDate(msgs, now, dateKey);
      forall i, j :: 0 <= i < j < |r| ==> AppearsBefore(DateKeys(msgs, now, dateKey), r[i].date, r[j].date)
  {
    var ks := DateKeys(msgs, now, dateKey);
    var r := GroupByDate(msgs, now, dateKey);
    GroupDatesAreFirstAppearances(msgs, now, dateKey);
    FirstAppearancesOrdered(ks);
    forall i, j | 0 <= i < j < |r|
      ensures AppearsBefore(ks, r[i].date, r[j].date)
    {
      assert r[i].date == Dates(r)[i] && r[j].date == Dates(r)[j];
    }
  }

  lemma {:induction false} FlattenAddAtEnd(gs: seq<DateGroup>, k: DateKey, m: Message)
    requires forall i :: 0 <= i < |gs| - 1 ==> gs[i].date != k
    ensures Flatten(AddToGroups(gs, k, m)) == Flatten(gs) + [m]
    decreases |gs|
  {
    var r := AddToGroups(gs, k, m);
    if |gs| == 0 {
      assert Flatten(r) == [m] + Flatten([]);
    } else if gs[0].date == k {
      assert |gs| == 1;
      assert r[1..] == [];
      assert Flatten(r) == r[0].messages + Flatten([]);
    } else {
      FlattenAddAtEnd(gs[1..], k, m);
      assert r[1..] == AddToGroups(gs[1..], k, m);
    }
  }

  /** Under contiguity the last first-appearance is the last key. */
  lemma {:induction false} ContiguousLastKey(ks: seq<DateKey>)
    requires Contiguous(ks) && |ks| > 0
    ensures |FirstAppearances(ks)| > 0
    ensures FirstAppearances(ks)[|FirstAppearances(ks)| - 1] == ks[|ks| - 1]
    decreases |ks|
  {
    var init := ks[..|ks| - 1];
    var x := ks[|ks| - 1];
    assert ks == init + [x];
    FirstAppearancesMembers(init);
    if x in FirstAppearances(init) {
      assert x in init;
      var p :| 0 <= p < |init| && init[p] == x;
      if p < |init| - 1 {
        assert NoGap(ks, p, |init| - 1, |ks| - 1);
      }
      assert init[|init| - 1] == x;
      ContiguousInit(init, x);
      ContiguousLastKey(init);
    }
  }

  /** Contiguity survives dropping the last key. */
  lemma ContiguousInit(ks: seq<DateKey>, k: DateKey)
    requires Contiguous(ks + [k])
    ensures Contiguous(ks)
  {
    forall i, j, l | 0 <= i < j < l < |ks|
      ensures NoGap(ks, i, j, l)
    {
      assert NoGap(ks + [k], i, j, l);
      assert (ks + [k])[i] == ks[i] && (ks + [k])[j] == ks[j] && (ks + [k])[l] == ks[l];
    }
  }

  /** In a contiguous key list, a key that recurs at the end can only be the
      last key seen so far, hence the last group's heading. */
  lemma ContiguousNextKey(ks: seq<DateKey>, k: DateKey)
    requires Contiguous(ks + [k])
    ensures forall i :: 0 <= i < |FirstAppearances(ks)| - 1 ==> FirstAppearances(ks)[i] != k
  {
    var d := FirstAppearances(ks);
    FirstAppearancesMembers(ks);
    if |ks| > 0 {
      ContiguousInit(ks, k);
      ContiguousLastKey(ks);
      var last := ks[|ks| - 1];
      if k != last {
        var ks' := ks + [k];
        forall p | 0 <= p < |ks| - 1
          ensures ks[p] == k ==> last == k
        {
          assert NoGap(ks', p, |ks| - 1, |ks|);
          assert ks'[p] == ks[p] && ks'[|ks|] == k && ks'[|ks| - 1] == last;
        }
        assert k !in ks;
      }
    }
  }

  /** Under contiguity, the next key either heads the last group or is new. */
  lemma ContiguousGroupsEndWith(gs: seq<DateGroup>, ks: seq<DateKey>, k: DateKey)
    requires Dates(gs) == FirstAppearances(ks)
    requires Contiguous(ks + [k])
    ensures forall i :: 0 <= i < |gs| - 1 ==> gs[i].date != k
  {
    ContiguousNextKey(ks, k);
    forall i | 0 <= i < |gs| - 1
      ensures gs[i].date != k
    {
      assert gs[i].date == Dates(gs)[i];
    }
  }

  /** When every date's messages form one run, the groups are a partition of
      the list: reading them back in order gives the original sequence. */
  lemma {:induction false} ContiguousDatesRoundTrip(msgs: seq<Message>, now: Timestamp, dateKey: Timestamp -> DateKey)
    requires Contiguous(DateKeys(msgs, now, dateKey))
    ensures Flatten(GroupByDate(msgs, now, dateKey)) == msgs
    decreases |msgs|
  {
    if |msgs| > 0 {
      var init := msgs[..|msgs| - 1];
      var m := msgs[|msgs| - 1];
      var k := KeyOf(m, now, dateKey);
      var ks := DateKeys(init, now, dateKey);
      var gs := GroupByDate(init, now, dateKey);
      assert msgs == init + [m];
      DateKeysSnoc(init, m, now, dateKey);
      GroupByDateSnoc(init, m, now, dateKey);
      ContiguousInit(ks, k);
      ContiguousDatesRoundTrip(init, now, dateKey);
      GroupDatesAreFirstAppearances(init, now, dateKey);
      ContiguousGroupsEndWith(gs, ks, k);
      FlattenAddAtEnd(gs, k, m);
    }
  }

  /** One more message is one more step of the reduce. */
  lemma GroupByDateSnoc(msgs: seq<Message>, m: Message, now: Timestamp, dateKey: Timestamp -> DateKey)
    ensures GroupByDate(msgs + [m], now, dateKey)
            == AddToGroups(GroupByDate(msgs, now, dateKey), KeyOf(m, now, dateKey), m)
  {
    assert (msgs + [m])[..|msgs|] == msgs;
  }

  /** Dates that are not contiguous are merged, not partitioned: for messages
      keyed A, B, A the grouping is [A: first and third, B: second], so reading
      the groups back reorders the list. */
  lemma {:induction false} NonContiguousDatesMerge(a: Message, b: Message, c: Message, now: Timestamp, dateKey: Timestamp -> DateKey)
    requires KeyOf(a, now, dateKey) == KeyOf(c, now, dateKey) != KeyOf(b, now, dateKey)
    ensures GroupByDate([a, b, c], now, dateKey)
            == [DateGroup(KeyOf(a, now, dateKey), [a, c]), DateGroup(KeyOf(b, now, dateKey), [b])]
  {
    var ka := KeyOf(a, now, dateKey);
    var kb := KeyOf(b, now, dateKey);
    GroupByDateSnoc([], a, now, dateKey);
    assert [] + [a] == [a];
    var g1 := GroupByDate([a], now, dateKey);
    assert g1 == [DateGroup(ka, [a])];
    GroupByDateSnoc([a], b, now, dateKey);
    assert [a] + [b] == [a, b];
    var g2 := GroupByDate([a, b], now, dateKey);
    assert Dates(g1)[0] == ka;
    assert |g2| == 2 && g2[0] == g1[0] && g2[1] == DateGroup(kb, [b]);
    GroupByDateSnoc([a, b], c, now, dateKey);
    assert [a, b] + [c] == [a, b, c];
    var r := GroupByDate([a, b, c], now, dateKey);
    assert Dates(g2)[0] == ka;
    assert |r| == 2 && r[0].date == ka && r[0].messages == [a, c] && r[1] == g2[1];
    assert r == [DateGroup(ka, [a, c]), DateGroup(kb, [b])];
  }

  /** Consequently reading the groups back does not give the list. */
  lemma NonContiguousDatesReorder(a: Message, b: Message, c: Message, now: Timestamp, dateKey: Timestamp -> DateKey)
    requires KeyOf(a, now, dateKey) == KeyOf(c, now, dateKey) != KeyOf(b, now, dateKey)
    ensures Flatten(GroupByDate([a, b, c], now, dateKey)) != [a, b, c]
  {
    NonContiguousDatesMerge(a, b, c, now, dateKey);
    var r := GroupByDate([a, b, c], now, dateKey);
    assert Flatten(r) == [a, c] + Flatten(r[1..]);
    assert Flatten(r)[1] == c && [a, b, c][1] == b && b != c;
  }
}
