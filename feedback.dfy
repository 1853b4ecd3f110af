/**
 * The feedback store (`add_feedback`, `feedback_stats`). The store is the
 * content of the feedback file: for each user, for each topic, a list of
 * records. Python dictionaries keep insertion order, so each level is an
 * association list, a sequence of key/value pairs with distinct keys.
 */
module Feedback {
  import opened Wrappers

  // ----- association lists -----


  /** A well-formed dictionary: no key twice. */
  predicate DistinctKeys<V>(s: seq<(string, V)>) {
    forall i, j :: 0 <= i < j < |s| ==> s[i].0 != s[j].0
  }

  /** The position of key `k`. */
  function KeyIndex<V>(s: seq<(string, V)>, k: string): (r: Option<nat>)
    ensures r.Some? ==> r.value < |s| && s[r.value].0 == k && forall j :: 0 <= j < r.value ==> s[j].0 != k
    ensures r.None? ==> forall j :: 0 <= j < |s| ==> s[j].0 != k
  {
    if s == [] then None
    else if s[0].0 == k then Some(0)
    else match KeyIndex(s[1..], k)
      case None =>
        assert forall j :: 1 <= j < |s| ==> s[j].0 == s[1..][j - 1].0;
        None
      case Some(j) => Some(j + 1)
  }

  /** `k in d`. */
  predicate HasKey<V>(s: seq<(string, V)>, k: string) {
    KeyIndex(s, k).Some?
  }

  /** `d.get(k, default)`. */
  function Get<V>(s: seq<(string, V)>, k: string, default: V): (r: V)
    ensures !HasKey(s, k) ==> r == default
  {
    match KeyIndex(s, k)
    case Some(i) => s[i].1
    case None => default
  }

  /** `d[k] = v`: replaces the value in place, or appends the key at the end. */
  function Put<V>(s: seq<(string, V)>, k: string, v: V): (r: seq<(string, V)>)
    ensures |r| == if HasKey(s, k) then |s| else |s| + 1
  {
    match KeyIndex(s, k)
    case Some(i) => s[i := (k, v)]
    case None => s + [(k, v)]
  }

  /** `d.setdefault(k, default)`, for its effect on `d`. */
  function SetDefault<V>(s: seq<(string, V)>, k: string, default: V): (r: seq<(string, V)>)
    ensures HasKey(s, k) ==> r == s
  {
    if HasKey(s, k) then s else s + [(k, default)]
  }

  /** Reading a key just written gives the value written; every other key keeps its value and its presence. */
  lemma PutGet<V>(s: seq<(string, V)>, k: string, v: V, k': string, d: V)
    ensures Get(Put(s, k, v), k, d) == v
    ensures k' != k ==> Get(Put(s, k, v), k', d) == Get(s, k', d)
    ensures HasKey(Put(s, k, v), k') <==> HasKey(s, k') || k' == k
  {
    var r := Put(s, k, v);
    if HasKey(s, k) {
      var i := KeyIndex(s, k).value;
      assert r == s[i := (k, v)];
      KeyIndexIs(r, k, i);
      if k' != k {
        SameKeysSameIndex(s, r, k');
      }
    } else {
      assert r == s + [(k, v)];
      KeyIndexIs(r, k, |s|);
      if k' != k {
        SameKeysSameIndex(s, r, k');
      }
    }
  }

  /** A dictionary with the same keys in the same places, and no `k` past them, finds `k` where the first does. */
  lemma SameKeysSameIndex<V>(s: seq<(string, V)>, r: seq<(string, V)>, k: string)
    requires |s| <= |r| && forall j :: 0 <= j < |s| ==> r[j].0 == s[j].0
    requires forall j :: |s| <= j < |r| ==> r[j].0 != k
    ensures KeyIndex(r, k) == KeyIndex(s, k)
  {
    if HasKey(s, k) {
      KeyIndexIs(r, k, KeyIndex(s, k).value);
    }
  }

  /** Writing keeps a dictionary's keys distinct. */
  lemma PutDistinct<V>(s: seq<(string, V)>, k: string, v: V)
    requires DistinctKeys(s)
    ensures DistinctKeys(Put(s, k, v))
  {
    var r := Put(s, k, v);
    match KeyIndex(s, k)
    case Some(i) =>
      assert forall j :: 0 <= j < |s| ==> r[j].0 == s[j].0;
    case None =>
      assert forall j :: 0 <= j < |s| ==> r[j] == s[j];
  }

  lemma KeyIndexIs<V>(s: seq<(string, V)>, k: string, i: nat)
    requires i < |s| && s[i].0 == k
    requires forall j :: 0 <= j < i ==> s[j].0 != k
    ensures KeyIndex(s, k) == Some(i)
  {
  }

  /** A `setdefault` followed by a write of the same key is the write alone. */
  lemma SetDefaultThenPut<V>(s: seq<(string, V)>, k: string, d: V, v: V)
    ensures Put(SetDefault(s, k, d), k, v) == Put(s, k, v)
  {
    if !HasKey(s, k) {
      var t := s + [(k, d)];
      assert forall j :: 0 <= j < |s| ==> t[j] == s[j];
      KeyIndexIs(t, k, |s|);
      assert t[|s| := (k, v)] == s + [(k, v)];
    }
  }

  /** Looking a key up in a dictionary with one more pair at the end. */
  lemma {:induction false} GetSnoc<V>(s: seq<(string, V)>, x: (string, V), k: string, d: V)
    ensures Get(s + [x], k, d) == if HasKey(s, k) then Get(s, k, d) else if x.0 == k then x.1 else d
    ensures HasKey(s + [x], k) <==> HasKey(s, k) || x.0 == k
  {
    var t := s + [x];
    assert forall j :: 0 <= j < |s| ==> t[j] == s[j];
    assert t[|s|] == x;
    match KeyIndex(s, k)
    case Some(i) =>
      assert KeyIndex(t, k) == Some(i);
    case None =>
      if x.0 == k {
        assert KeyIndex(t, k) == Some(|s|);
      }
  }

  // ----- add_feedback -----

  /** One feedback record; `feedback` is `None` where the request carried none. */
  datatype Record = Record(userMessage: string, aiResponse: string, feedback: Option<string>, comment: string, timestamp: string)

  type Topics = seq<(string, seq<Record>)>

  type Feedbacks = seq<(string, Topics)>

  const DefaultUser: string := "default_user"
  const DefaultTopic: string := "geral"

  predicate Matches(r: Record, userMessage: string, aiResponse: string) {
    r.userMessage == userMessage && r.aiResponse == aiResponse
  }

  /** The first record for this message and response. */
  function FirstMatch(items: seq<Record>, userMessage: string, aiResponse: string): (r: Option<nat>)
    ensures r.Some? ==> r.value < |items| && Matches(items[r.value], userMessage, aiResponse)
    ensures r.Some? ==> forall j :: 0 <= j < r.value ==> !Matches(items[j], userMessage, aiResponse)
    ensures r.None? ==> forall j :: 0 <= j < |items| ==> !Matches(items[j], userMessage, aiResponse)
  {
    if items == [] then None
    else if Matches(items[0], userMessage, aiResponse) then Some(0)
    else match FirstMatch(items[1..], userMessage, aiResponse)
      case None =>
        assert forall j :: 1 <= j < |items| ==> items[j] == items[1..][j - 1];
        None
      case Some(j) => Some(j + 1)
  }

  lemma FirstMatchIs(items: seq<Record>, userMessage: string, aiResponse: string, i: nat)
    requires i < |items| && Matches(items[i], userMessage, aiResponse)
    requires forall j :: 0 <= j < i ==> !Matches(items[j], userMessage, aiResponse)
    ensures FirstMatch(items, userMessage, aiResponse) == Some(i)
  {
  }

  /** The topic's list after the upsert: the first matching record updated in place, or a new record at the end. */
  function Upserted(items: seq<Record>, userMessage: string, aiResponse: string, feedback: Option<string>, comment: string, timestamp: string): seq<Record> {
    match FirstMatch(items, userMessage, aiResponse)
    case Some(i) => items[i := items[i].(feedback := feedback, comment := comment, timestamp := timestamp)]
    case None => items + [Record(userMessage, aiResponse, feedback, comment, timestamp)]
  }

  /**
   * The upsert: with a match, the list keeps its length and only the first
   * matching record changes, in its feedback, comment and timestamp; without
   * one, the new record is appended. Either way the first record for the
   * pair afterwards carries the new feedback, comment and timestamp.
   */
  lemma UpsertSpec(items: seq<Record>, userMessage: string, aiResponse: string, feedback: Option<string>, comment: string, timestamp: string)
    ensures var r := Upserted(items, userMessage, aiResponse, feedback, comment, timestamp);
      var k := FirstMatch(r, userMessage, aiResponse);
      && k.Some?
      && r[k.value] == Record(userMessage, aiResponse, feedback, comment, timestamp)
      && (|r| == |items| <==> FirstMatch(items, userMessage, aiResponse).Some?)
      && (|r| == |items| || |r| == |items| + 1)
      && r[..|items|][..k.value] == items[..k.value]
      && (forall j :: k.value < j < |items| ==> r[j] == items[j])
  {
    var r := Upserted(items, userMessage, aiResponse, feedback, comment, timestamp);
    match FirstMatch(items, userMessage, aiResponse)
    case Some(i) =>
      assert forall j :: 0 <= j < i ==> r[j] == items[j];
      assert Matches(r[i], userMessage, aiResponse);
      assert FirstMatch(r, userMessage, aiResponse) == Some(i);
    case None =>
      assert forall j :: 0 <= j < |items| ==> r[j] == items[j];
      FirstMatchIs(r, userMessage, aiResponse, |items|);
      assert r[..|items|] == items;
  }

  /** The loop of `add_feedback` over the topic's records, stopping at the first match. */
  method UpsertRecord(items: seq<Record>, userMessage: string, aiResponse: string, feedback: Option<string>, comment: string, timestamp: string)
    returns (updated: seq<Record>)
    ensures updated == Upserted(items, userMessage, aiResponse, feedback, comment, timestamp)
  {
    updated := items;
    var found := false;
    var i := 0;
    while i < |items|
      invariant 0 <= i <= |items|
      invariant !found && updated == items
      invariant forall j :: 0 <= j < i ==> !Matches(items[j], userMessage, aiResponse)
    {
      if items[i].userMessage == userMessage && items[i].aiResponse == aiResponse {
        assert FirstMatch(items, userMessage, aiResponse) == Some(i);
        updated := items[i := items[i].(feedback := feedback, comment := comment, timestamp := timestamp)];
        found := true;
        break;
      }
      i := i + 1;
    }
    if !found {
      assert FirstMatch(items, userMessage, aiResponse).None?;
      updated := updated + [Record(userMessage, aiResponse, feedback, comment, timestamp)];
    }
  }

  /** The store after `add_feedback`: both `setdefault`s, then the upsert in the topic's list. */
  function AddFeedback(all: Feedbacks, user: string, topic: string, userMessage: string, aiResponse: string,
                       feedback: Option<string>, comment: string, timestamp: string): Feedbacks
  {
    var topics := Get(all, user, []);
    var items := Get(topics, topic, []);
    Put(all, user, Put(topics, topic, Upserted(items, userMessage, aiResponse, feedback, comment, timestamp)))
  }

  /**
   * After `add_feedback` the user's topic holds the record with the new
   * feedback, every other topic of the user and every other user are as
   * before, and the dictionaries stay well formed.
   */
  lemma AddFeedbackSpec(all: Feedbacks, user: string, topic: string, userMessage: string, aiResponse: string,
                        feedback: Option<string>, comment: string, timestamp: string, otherUser: string, otherTopic: string)
    requires DistinctKeys(all) && DistinctKeys(Get(all, user, []))
    ensures var r := AddFeedback(all, user, topic, userMessage, aiResponse, feedback, comment, timestamp);
      var items := Get(Get(r, user, []), topic, []);
      var k := FirstMatch(items, userMessage, aiResponse);
      && k.Some? && items[k.value] == Record(userMessage, aiResponse, feedback, comment, timestamp)
      && (otherUser != user ==> Get(r, otherUser, []) == Get(all, otherUser, []))
      && (otherTopic != topic ==> Get(Get(r, user, []), otherTopic, []) == Get(Get(all, user, []), otherTopic, []))
      && DistinctKeys(r) && DistinctKeys(Get(r, user, []))
  {
    var topics := Get(all, user, []);
    var items := Get(topics, topic, []);
    var up := Upserted(items, userMessage, aiResponse, feedback, comment, timestamp);
    var newTopics := Put(topics, topic, up);
    PutGet(all, user, newTopics, otherUser, []);
    PutGet(topics, topic, up, otherTopic, []);
    PutDistinct(all, user, newTopics);
    PutDistinct(topics, topic, up);
    UpsertSpec(items, userMessage, aiResponse, feedback, comment, timestamp);
  }

  /** The feedback file's content, as `add_feedback` loads and saves it. */
  class FeedbackStore {
    var data: Feedbacks

    constructor (initial: Feedbacks)
      ensures data == initial
    {
      data := initial;
    }

    /** `add_feedback`, with the request's fields and the formatted time as parameters. */
    method Add(user: string, topic: string, userMessage: string, aiResponse: string,
               feedback: Option<string>, comment: string, timestamp: string)
      modifies this
      ensures data == AddFeedback(old(data), user, topic, userMessage, aiResponse, feedback, comment, timestamp)
    {
      var topics := Get(data, user, []);
      var records := Get(topics, topic, []);
      var updated := UpsertRecord(records, userMessage, aiResponse, feedback, comment, timestamp);
      data := SetDefault(data, user, []);
      var withTopic := SetDefault(topics, topic, []);
      SetDefaultThenPut(topics, topic, [], updated);
      SetDefaultThenPut<Topics>(old(data), user, [], Put(topics, topic, updated));
      data := Put(data, user, Put(withTopic, topic, updated));
    }
  }

  // ----- feedback_stats -----

  datatype Counts = Counts(positive: nat, negative: nat)

  const Zero: Counts := Counts(0, 0)
  const Positive: string := "positivo"
  const Negative: string := "negativo"

  function Plus(a: Counts, b: Counts): Counts {
    Counts(a.positive + b.positive, a.negative + b.negative)
  }

  /** What one record adds: one positive, one negative, or nothing for any other value. */
  function CountOf(r: Record): Counts {
    if r.feedback == Some(Positive) then Counts(1, 0)
    else if r.feedback == Some(Negative) then Counts(0, 1)
    else Zero
  }

  /** The counts of a list of records. */
  function CountItems(items: seq<Record>): Counts {
    if items == [] then Zero else Plus(CountItems(items[..|items| - 1]), CountOf(items[|items| - 1]))
  }

  /** One topic's list added into the stats, after `stats.setdefault(tema, …)`. */
  function AddTopic(stats: seq<(string, Counts)>, entry: (string, seq<Record>)): seq<(string, Counts)> {
    Put(stats, entry.0, Plus(Get(stats, entry.0, Zero), CountItems(entry.1)))
  }

  function AddTopics(stats: seq<(string, Counts)>, topics: Topics): seq<(string, Counts)> {
    if topics == [] then stats else AddTopic(AddTopics(stats, topics[..|topics| - 1]), topics[|topics| - 1])
  }

  /** `feedback_stats` on the loaded store. */
  function StatsOf(all: Feedbacks): seq<(string, Counts)> {
    if all == [] then [] else AddTopics(StatsOf(all[..|all| - 1]), all[|all| - 1].1)
  }

  /** The totals for a topic: the counts of that topic's list of every user, summed. */
  function TopicTotal(all: Feedbacks, topic: string): Counts {
    if all == [] then Zero
    else
      var before, topics := TopicTotal(all[..|all| - 1], topic), all[|all| - 1].1;
      if HasKey(topics, topic) then Plus(before, CountItems(Get(topics, topic, []))) else before
  }

  /** Some user has the topic. */
  predicate AnyHasTopic(all: Feedbacks, topic: string) {
    exists u :: 0 <= u < |all| && HasKey(all[u].1, topic)
  }

  /** A record is counted at most once, so the two counts together never exceed the records. */
  lemma {:induction false} CountBounded(items: seq<Record>)
    ensures CountItems(items).positive + CountItems(items).negative <= |items|
  {
    if items != [] {
      CountBounded(items[..|items| - 1]);
    }
  }

  lemma AddTopicGet(stats: seq<(string, Counts)>, entry: (string, seq<Record>), topic: string)
    ensures Get(AddTopic(stats, entry), topic, Zero)
      == if entry.0 == topic then Plus(Get(stats, topic, Zero), CountItems(entry.1)) else Get(stats, topic, Zero)
    ensures HasKey(AddTopic(stats, entry), topic) <==> HasKey(stats, topic) || entry.0 == topic
  {
    PutGet(stats, entry.0, Plus(Get(stats, entry.0, Zero), CountItems(entry.1)), topic, Zero);
  }

  /** Adding a topic list changes only that topic's entry, by that list's counts, and only when the list has the topic. */
  lemma {:induction false} AddTopicsGet(stats: seq<(string, Counts)>, topics: Topics, topic: string)
    requires DistinctKeys(topics)
    ensures Get(AddTopics(stats, topics), topic, Zero)
      == if HasKey(topics, topic) then Plus(Get(stats, topic, Zero), CountItems(Get(topics, topic, []))) else Get(stats, topic, Zero)
    ensures HasKey(AddTopics(stats, topics), topic) <==> HasKey(stats, topic) || HasKey(topics, topic)
    decreases |topics|
  {
    var none: seq<Record> := [];
    if topics == [] {
      assert AddTopics(stats, topics) == stats;
      assert KeyIndex(topics, topic) == None;
    } else {
      var init, last := topics[..|topics| - 1], topics[|topics| - 1];
      assert topics == init + [last];
      assert DistinctKeys(init) by {
        forall i, j | 0 <= i < j < |init| ensures init[i].0 != init[j].0 {
          assert init[i] == topics[i] && init[j] == topics[j];
        }
      }
      var before := AddTopics(stats, init);
      assert AddTopics(stats, topics) == AddTopic(before, last);
      AddTopicsGet(stats, init, topic);
      AddTopicGet(before, last, topic);
      GetSnoc(init, last, topic, none);
      if last.0 == topic {
        assert KeyIndex(init, topic) == None by {
          forall j | 0 <= j < |init| ensures init[j].0 != topic {
            assert init[j] == topics[j];
          }
        }
        assert Get(topics, topic, none) == last.1;
      }
    }
  }

  /**
   * `feedback_stats`: a topic's entry holds the positives and the negatives
   * of that topic's records over all users.
   */
  lemma {:induction false} StatsTotal(all: Feedbacks, topic: string)
    requires forall u :: 0 <= u < |all| ==> DistinctKeys(all[u].1)
    ensures Get(StatsOf(all), topic, Zero) == TopicTotal(all, topic)
  {
    if all != [] {
      var init, last := all[..|all| - 1], all[|all| - 1];
      assert forall u :: 0 <= u < |init| ==> init[u] == all[u];
      StatsTotal(init, topic);
      AddTopicsGet(StatsOf(init), last.1, topic);
    }
  }

  /** The entries of `feedback_stats` are exactly the topics some user has, with no counts as well. */
  lemma {:induction false} StatsKeys(all: Feedbacks, topic: string)
    requires forall u :: 0 <= u < |all| ==> DistinctKeys(all[u].1)
    ensures HasKey(StatsOf(all), topic) <==> AnyHasTopic(all, topic)
  {
    if all != [] {
      var init, last := all[..|all| - 1], all[|all| - 1];
      assert forall u :: 0 <= u < |init| ==> init[u] == all[u];
      StatsKeys(init, topic);
      AddTopicsGet(StatsOf(init), last.1, topic);
      AnyHasTopicSplit(all, topic);
    }
  }

  /** Some user has the topic exactly when one before the last does, or the last one does. */
  lemma AnyHasTopicSplit(all: Feedbacks, topic: string)
    requires all != []
    ensures AnyHasTopic(all, topic) <==> AnyHasTopic(all[..|all| - 1], topic) || HasKey(all[|all| - 1].1, topic)
  {
    var init := all[..|all| - 1];
    forall u | 0 <= u < |init| ensures init[u] == all[u] {
    }
    if HasKey(all[|all| - 1].1, topic) {
      assert 0 <= |all| - 1 < |all| && HasKey(all[|all| - 1].1, topic);
    }
  }

  /** The counts of one more record. */
  lemma CountStep(items: seq<Record>, i: nat)
    requires i < |items|
    ensures CountItems(items[..i + 1]) == Plus(CountItems(items[..i]), CountOf(items[i]))
  {
    assert items[..i + 1][..i] == items[..i];
    assert items[..i + 1][i] == items[i];
  }

  /** The three cases of one record's counts. */
  lemma CountOfCases(r: Record)
    ensures r.feedback == Some(Positive) ==> CountOf(r) == Counts(1, 0)
    ensures r.feedback != Some(Positive) && r.feedback == Some(Negative) ==> CountOf(r) == Counts(0, 1)
    ensures r.feedback != Some(Positive) && r.feedback != Some(Negative) ==> CountOf(r) == Zero
  {
  }

  /** The increments for one topic's records: one per positive and one per negative record. */
  method CountRecords(start: Counts, items: seq<Record>) returns (c: Counts)
    ensures c == Plus(start, CountItems(items))
  {
    c := start;
    var i := 0;
    while i < |items|
      invariant 0 <= i <= |items|
      invariant c.positive == start.positive + CountItems(items[..i]).positive
      invariant c.negative == start.negative + CountItems(items[..i]).negative
    {
      CountStep(items, i);
      CountOfCases(items[i]);
      if items[i].feedback == Some(Positive) {
        c := Counts(c.positive + 1, c.negative);
      } else if items[i].feedback == Some(Negative) {
        c := Counts(c.positive, c.negative + 1);
      }
      i := i + 1;
    }
    assert items[..|items|] == items;
  }

  /** The counting for one topic's list: `setdefault`, then the increments into that entry. */
  method CountTopic(stats: seq<(string, Counts)>, topic: string, items: seq<Record>) returns (updated: seq<(string, Counts)>)
    ensures updated == AddTopic(stats, (topic, items))
  {
    updated := SetDefault(stats, topic, Zero);
    var start := Get(updated, topic, Zero);
    assert start == Get(stats, topic, Zero) by {
      if !HasKey(stats, topic) {
        GetSnoc(stats, (topic, Zero), topic, Zero);
      }
    }
    var c := CountRecords(start, items);
    SetDefaultThenPut(stats, topic, Zero, c);
    updated := Put(updated, topic, c);
  }

  /** The loop over one user's topics. */
  method CountTopics(stats: seq<(string, Counts)>, topics: Topics) returns (updated: seq<(string, Counts)>)
    ensures updated == AddTopics(stats, topics)
  {
    updated := stats;
    var k := 0;
    while k < |topics|
      invariant 0 <= k <= |topics|
      invariant updated == AddTopics(stats, topics[..k])
    {
      assert topics[..k + 1][..k] == topics[..k];
      updated := CountTopic(updated, topics[k].0, topics[k].1);
      k := k + 1;
    }
    assert topics[..|topics|] == topics;
  }

  /** `feedback_stats`: for each user, for each topic, the records counted one by one. */
  method FeedbackStats(all: Feedbacks) returns (stats: seq<(string, Counts)>)
    ensures stats == StatsOf(all)
  {
    stats := [];
    var u := 0;
    while u < |all|
      invariant 0 <= u <= |all|
      invariant stats == StatsOf(all[..u])
    {
      assert all[..u + 1][..u] == all[..u];
      stats := CountTopics(stats, all[u].1);
      u := u + 1;
    }
    assert all[..|all|] == all;
  }
}
