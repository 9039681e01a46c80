/**
  The read side of the controller (`index`, WhatsAppController.php lines 41-82):
  the flat message log is grouped into one conversation per normalised phone,
  each conversation is sorted oldest first, the conversations are listed newest
  first, and one of them is chosen as the active chat.
 */
module Conversations {
  import opened Wrappers
  import opened Phone
  import opened Sorting
  import opened Messages

  /** The grouping key of a record: its phone, normalised again at read time (line 44). */
  function Key(m: Message): (k: string)
    ensures AllDigits(k) && Normalize(k) == k
  {
    NormalizeIdempotent(m.phone);
    Normalize(m.phone)
  }

  /** The order of messages inside a conversation (line 58). */
  function Time(m: Message): int {
    m.createdAt
  }

  datatype Conversation = Conversation(phone: string, messages: seq<Message>, lastMessage: Message)

  /** The order of the conversation list (line 66): a later last message comes first. */
  function NewestFirst(c: Conversation): int {
    -c.lastMessage.createdAt
  }

  /**
    The records of `log` whose key is `phone`, in log order: the partition that
    the grouping loop collects for that phone. Every record with that key is
    there as often as it is in the log, and nothing else is.
   */
  function MessagesOf(log: seq<Message>, phone: string): seq<Message> {
    if log == [] then []
    else
      var last := log[|log| - 1];
      MessagesOf(log[..|log| - 1], phone) + (if Key(last) == phone then [last] else [])
  }

  /** Every record with key `phone` is in its partition as often as it is in the log, and nothing else is. */
  lemma {:induction false} MessagesOfCounts(log: seq<Message>, phone: string)
    ensures forall m :: multiset(MessagesOf(log, phone))[m] == if Key(m) == phone then multiset(log)[m] else 0
  {
    if log != [] {
      var init, last := log[..|log| - 1], log[|log| - 1];
      assert log == init + [last];
      MessagesOfCounts(init, phone);
    }
  }

  /** `c` is the conversation for `phone` built from `msgs`: sorted oldest first, a permutation of `msgs`, ending in `lastMessage`. */
  predicate SortedThread(c: Conversation, phone: string, msgs: seq<Message>) {
    && c.phone == phone
    && c.messages != []
    && SortedBy(c.messages, Time)
    && multiset(c.messages) == multiset(msgs)
    && c.lastMessage == c.messages[|c.messages| - 1]
  }

  /** `c` is the conversation of `log` for its own phone. */
  predicate IsThreadOf(log: seq<Message>, c: Conversation) {
    SortedThread(c, c.phone, MessagesOf(log, c.phone))
  }

  predicate DistinctPhones(list: seq<Conversation>) {
    forall i, j :: 0 <= i < j < |list| ==> list[i].phone != list[j].phone
  }

  /** `list` holds exactly one conversation of `log` per key that occurs in `log`, in any order. */
  predicate Groups(log: seq<Message>, list: seq<Conversation>) {
    && (forall j :: 0 <= j < |list| ==> IsThreadOf(log, list[j]))
    && DistinctPhones(list)
    && (forall m :: m in log ==> exists j :: 0 <= j < |list| && list[j].phone == Key(m))
  }

  /** The conversation list of the dashboard: the groups of `log`, newest last message first. */
  predicate IsListing(log: seq<Message>, list: seq<Conversation>) {
    && Groups(log, list)
    && forall i, j :: 0 <= i < j < |list| ==> list[j].lastMessage.createdAt <= list[i].lastMessage.createdAt
  }

  // ---------------------------------------------------------------------------
  // Facts about the partition function

  lemma MessagesOfMembers(log: seq<Message>, phone: string, m: Message)
    ensures m in MessagesOf(log, phone) <==> m in log && Key(m) == phone
  {
    MessagesOfCounts(log, phone);
    assert m in MessagesOf(log, phone) <==> m in multiset(MessagesOf(log, phone));
    assert m in log <==> m in multiset(log);
  }

  /** Extending the log by one record extends exactly the partition of that record's key. */
  lemma AppendJoinsOneThread(log: seq<Message>, m: Message, phone: string)
    ensures MessagesOf(log + [m], phone) == MessagesOf(log, phone) + (if Key(m) == phone then [m] else [])
  {
    assert (log + [m])[..|log|] == log;
  }

  /** A key that no record of `log` has owns an empty partition. */
  lemma NoMessagesOf(log: seq<Message>, phone: string)
    requires forall j :: 0 <= j < |log| ==> Key(log[j]) != phone
    ensures MessagesOf(log, phone) == []
  {
    var r := MessagesOf(log, phone);
    if r != [] {
      MessagesOfMembers(log, phone, r[0]);
      assert false;
    }
  }

  // ---------------------------------------------------------------------------
  // The three steps of `index` that build the conversation list

  /**
    `order` and `groups` are the grouping of `log`: `order` lists each key of
    `log` once, and `groups` maps exactly those keys to their partitions.
   */
  ghost predicate GroupedBy(log: seq<Message>, order: seq<string>, groups: map<string, seq<Message>>) {
    && (forall a, b :: 0 <= a < b < |order| ==> order[a] != order[b])
    && (forall k :: k in groups <==> k in order)
    && (forall k :: k in groups ==> groups[k] == MessagesOf(log, k) && groups[k] != [])
    && (forall j :: 0 <= j < |log| ==> Key(log[j]) in groups)
  }

  /**
    Lines 42-53: one pass over the log that appends each record to the list of
    its key, creating the list the first time the key is seen. PHP's ordered
    array is `order` (keys in first-appearance order) plus `groups`.
   */
  method GroupByPhone(log: seq<Message>) returns (order: seq<string>, groups: map<string, seq<Message>>)
    ensures GroupedBy(log, order, groups)
  {
    order, groups := [], map[];
    for i := 0 to |log|
      invariant GroupedBy(log[..i], order, groups)
    {
      var m := log[i];
      var phone := Key(m);
      assert log[..i + 1] == log[..i] + [m];
      GroupStep(log[..i], m, order, groups);
      if phone !in groups {
        order := order + [phone];
        groups := groups[phone := [m]];
      } else {
        groups := groups[phone := groups[phone] + [m]];
      }
    }
    assert log[..|log|] == log;
  }

  /** One iteration of the grouping loop keeps the grouping invariant. */
  lemma GroupStep(prefix: seq<Message>, m: Message, order: seq<string>, groups: map<string, seq<Message>>)
    requires GroupedBy(prefix, order, groups)
    ensures var phone := Key(m);
            if phone in groups then GroupedBy(prefix + [m], order, groups[phone := groups[phone] + [m]])
            else GroupedBy(prefix + [m], order + [phone], groups[phone := [m]])
  {
    var phone := Key(m);
    var after := if phone in groups then groups[phone := groups[phone] + [m]] else groups[phone := [m]];
    var order' := if phone in groups then order else order + [phone];
    if phone !in groups {
      NoMessagesOf(prefix, phone);
    }
    forall k | k in after ensures after[k] == MessagesOf(prefix + [m], k) && after[k] != [] {
      AppendJoinsOneThread(prefix, m, k);
    }
    forall j | 0 <= j < |prefix + [m]| ensures Key((prefix + [m])[j]) in after {
      if j < |prefix| {
        assert (prefix + [m])[j] == prefix[j];
      }
    }
    assert GroupedBy(prefix + [m], order', after);
  }

  /**
    Lines 56-61: every group is sorted oldest first and its final element
    becomes `last_message`.
   */
  method SortThreads(order: seq<string>, groups: map<string, seq<Message>>) returns (convs: map<string, Conversation>)
    requires forall k :: k in groups <==> k in order
    requires forall k :: k in groups ==> groups[k] != []
    ensures forall k :: k in convs <==> k in groups
    ensures forall k :: k in convs ==> SortedThread(convs[k], k, groups[k])
  {
    convs := map[];
    for j := 0 to |order|
      invariant forall k :: k in convs <==> k in order[..j]
      invariant forall k :: k in convs ==> SortedThread(convs[k], k, groups[k])
    {
      var phone := order[j];
      assert order[..j + 1] == order[..j] + [phone];
      var sorted := SortBy(groups[phone], Time);
      SortByLength(groups[phone], Time);
      convs := convs[phone := Conversation(phone, sorted, sorted[|sorted| - 1])];
    }
    assert order[..|order|] == order;
  }

  /**
    Lines 41-67: the grouped conversations by phone (`$conversations`) and the
    conversation list (`array_values` of them, sorted newest first). The map and
    the list hold the same conversations.
   */
  method ListConversations(log: seq<Message>) returns (convs: map<string, Conversation>, list: seq<Conversation>)
    ensures IsListing(log, list)
    ensures forall k :: k in convs <==> exists j :: 0 <= j < |list| && list[j].phone == k
    ensures forall j :: 0 <= j < |list| ==> list[j].phone in convs && convs[list[j].phone] == list[j]
  {
    var order, groups := GroupByPhone(log);
    convs := SortThreads(order, groups);
    var unsorted := seq(|order|, j requires 0 <= j < |order| => convs[order[j]]);
    list := SortBy(unsorted, NewestFirst);
    KeyOrderListGroups(log, order, groups, convs, unsorted);
    GroupsUnderPermutation(log, unsorted, list);
    ReorderedKeepsLookup(order, convs, unsorted, list);
  }

  /** `array_values($conversations)`: the conversations in key order form the groups of the log. */
  lemma KeyOrderListGroups(log: seq<Message>, order: seq<string>, groups: map<string, seq<Message>>,
                           convs: map<string, Conversation>, unsorted: seq<Conversation>)
    requires GroupedBy(log, order, groups)
    requires forall k :: k in convs <==> k in groups
    requires forall k :: k in convs ==> SortedThread(convs[k], k, groups[k])
    requires |unsorted| == |order| && forall j :: 0 <= j < |order| ==> unsorted[j] == convs[order[j]]
    ensures Groups(log, unsorted)
  {
    forall m | m in log ensures exists j :: 0 <= j < |unsorted| && unsorted[j].phone == Key(m) {
      var i :| 0 <= i < |log| && log[i] == m;
      var j :| 0 <= j < |order| && order[j] == Key(m);
      assert unsorted[j].phone == Key(m);
    }
  }

  /** After reordering, the list and the map by phone still hold the same conversations. */
  lemma ReorderedKeepsLookup(order: seq<string>, convs: map<string, Conversation>,
                             unsorted: seq<Conversation>, list: seq<Conversation>)
    requires forall k :: k in convs <==> k in order
    requires forall k :: k in convs ==> convs[k].phone == k
    requires |unsorted| == |order| && forall j :: 0 <= j < |order| ==> unsorted[j] == convs[order[j]]
    requires multiset(list) == multiset(unsorted)
    ensures forall k :: k in convs <==> exists j :: 0 <= j < |list| && list[j].phone == k
    ensures forall j :: 0 <= j < |list| ==> list[j].phone in convs && convs[list[j].phone] == list[j]
  {
    forall j | 0 <= j < |list| ensures list[j].phone in convs && convs[list[j].phone] == list[j] {
      assert list[j] in multiset(unsorted);
      var i :| 0 <= i < |unsorted| && unsorted[i] == list[j];
    }
    forall k | k in convs ensures exists j :: 0 <= j < |list| && list[j].phone == k {
      var i :| 0 <= i < |order| && order[i] == k;
      assert unsorted[i] in multiset(list);
      var j :| 0 <= j < |list| && list[j] == unsorted[i];
    }
  }

  /** Reordering a set of groups keeps it a set of groups: each phone still appears once. */
  lemma GroupsUnderPermutation(log: seq<Message>, a: seq<Conversation>, b: seq<Conversation>)
    requires Groups(log, a)
    requires multiset(a) == multiset(b)
    ensures Groups(log, b)
  {
    forall j | 0 <= j < |b| ensures IsThreadOf(log, b[j]) && b[j] in a {
      assert b[j] in multiset(a);
    }
    forall m | m in log ensures exists j :: 0 <= j < |b| && b[j].phone == Key(m) {
      var i :| 0 <= i < |a| && a[i].phone == Key(m);
      assert a[i] in multiset(b);
      var j :| 0 <= j < |b| && b[j] == a[i];
    }
    forall i, j | 0 <= i < j < |b| ensures b[i].phone != b[j].phone {
      if b[i].phone == b[j].phone {
        var p :| 0 <= p < |a| && a[p] == b[i];
        var q :| 0 <= q < |a| && a[q] == b[j];
        assert p == q;
        RepeatedElement(b, i, j);
        DistinctPhonesOccurOnce(a, p);
        assert false;
      }
    }
  }

  lemma RepeatedElement<T>(s: seq<T>, i: nat, j: nat)
    requires i < j < |s| && s[i] == s[j]
    ensures multiset(s)[s[i]] >= 2
  {
    assert s == s[..j] + [s[j]] + s[j + 1..];
    assert s[i] in s[..j];
    assert multiset(s) == multiset(s[..j]) + multiset{s[j]} + multiset(s[j + 1..]);
  }

  lemma {:induction false} DistinctPhonesOccurOnce(s: seq<Conversation>, p: nat)
    requires DistinctPhones(s) && p < |s|
    ensures multiset(s)[s[p]] == 1
  {
    assert s == [s[0]] + s[1..];
    if p == 0 {
      assert s[0] !in s[1..];
    } else {
      DistinctPhonesOccurOnce(s[1..], p - 1);
      assert s[0] != s[p];
    }
  }

  // ---------------------------------------------------------------------------
  // Active-conversation selection (lines 69-82)

  /** PHP truthiness of the `phone` query value: null, "" and "0" are false. */
  predicate Truthy(p: Option<string>) {
    p.Some? && p.value != "" && p.value != "0"
  }

  /** Lines 70-73: a truthy requested phone is normalised; any other value is kept as it is. */
  function RequestedPhone(query: Option<string>): (r: Option<string>)
    ensures Truthy(r) ==> AllDigits(r.value) && Normalize(r.value) == r.value
    ensures !Truthy(query) ==> r == query
  {
    if Truthy(query) then NormalizeIdempotent(query.value); Some(Normalize(query.value)) else query
  }

  datatype Dashboard = Dashboard(conversations: seq<Conversation>, activeChat: seq<Message>, activePhone: Option<string>)

  /**
    The chosen chat: a known requested phone shows its conversation; an unknown
    one shows an empty chat under that (normalised) phone; with no usable phone
    the newest conversation is shown, and with no conversations nothing is.
   */
  predicate ActiveChosen(query: Option<string>, view: Dashboard) {
    var list, p := view.conversations, RequestedPhone(query);
    if Truthy(p) then
      && view.activePhone == p
      && ((exists j :: 0 <= j < |list| && list[j].phone == p.value && view.activeChat == list[j].messages)
          || ((forall j :: 0 <= j < |list| ==> list[j].phone != p.value) && view.activeChat == []))
    else if list != [] then
      view.activePhone == Some(list[0].phone) && view.activeChat == list[0].messages
    else
      view.activePhone == p && view.activeChat == []
  }

  /** The whole of `index` once the log is loaded: the conversation list and the active chat. */
  method BuildDashboard(log: seq<Message>, query: Option<string>) returns (view: Dashboard)
    ensures IsListing(log, view.conversations)
    ensures ActiveChosen(query, view)
  {
    var convs, list := ListConversations(log);
    var activePhone := query;
    if Truthy(activePhone) {
      activePhone := Some(Normalize(activePhone.value));
    }
    var activeChat: seq<Message> := [];
    if Truthy(activePhone) && activePhone.value in convs {
      activeChat := convs[activePhone.value].messages;
    } else if !Truthy(activePhone) && list != [] {
      activePhone := Some(list[0].phone);
      activeChat := list[0].messages;
    }
    view := Dashboard(list, activeChat, activePhone);
  }

  // ---------------------------------------------------------------------------
  // What the listing promises

  /** Every message of a conversation is a record of the log with that conversation's key. */
  lemma ThreadMembers(log: seq<Message>, c: Conversation, m: Message)
    requires IsThreadOf(log, c) && m in c.messages
    ensures m in log && Key(m) == c.phone
  {
    assert m in multiset(c.messages);
    MessagesOfMembers(log, c.phone, m);
  }

  /**
    The listing partitions the log: each record lies in the conversation keyed
    by its normalised phone, as often as it occurs in the log, and in no other.
   */
  lemma ListingPartitionsLog(log: seq<Message>, list: seq<Conversation>, m: Message)
    requires Groups(log, list) && m in log
    ensures exists j :: 0 <= j < |list| && list[j].phone == Key(m)
                        && multiset(list[j].messages)[m] == multiset(log)[m]
    ensures forall j :: 0 <= j < |list| && m in list[j].messages ==> list[j].phone == Key(m)
  {
    var j :| 0 <= j < |list| && list[j].phone == Key(m);
    MessagesOfCounts(log, Key(m));
    assert multiset(list[j].messages)[m] == multiset(log)[m];
    forall i | 0 <= i < |list| && m in list[i].messages ensures list[i].phone == Key(m) {
      ThreadMembers(log, list[i], m);
    }
  }

  /** The last message of a conversation is its latest one. */
  lemma LastMessageIsLatest(log: seq<Message>, c: Conversation, m: Message)
    requires IsThreadOf(log, c) && m in c.messages
    ensures m.createdAt <= c.lastMessage.createdAt
  {
    var i :| 0 <= i < |c.messages| && c.messages[i] == m;
    if i < |c.messages| - 1 {
      assert Time(c.messages[i]) <= Time(c.messages[|c.messages| - 1]);
    }
  }

  /** The first conversation of the listing holds the latest message of the whole log. */
  lemma FirstConversationIsNewest(log: seq<Message>, list: seq<Conversation>, m: Message)
    requires IsListing(log, list) && m in log
    ensures list != [] && m.createdAt <= list[0].lastMessage.createdAt
  {
    ListingPartitionsLog(log, list, m);
    var j :| 0 <= j < |list| && list[j].phone == Key(m) && multiset(list[j].messages)[m] == multiset(log)[m];
    assert m in multiset(log);
    assert m in list[j].messages;
    LastMessageIsLatest(log, list[j], m);
  }

  /** An empty log lists no conversations, and only an empty log does. */
  lemma EmptyListingIffEmptyLog(log: seq<Message>, list: seq<Conversation>)
    requires Groups(log, list)
    ensures list == [] <==> log == []
  {
    if log != [] {
      assert log[0] in log;
    }
    if list != [] {
      assert list[0].messages[0] in list[0].messages;
      ThreadMembers(log, list[0], list[0].messages[0]);
    }
  }

  // ---------------------------------------------------------------------------
  // Message count: the conversations together hold exactly the log

  function TotalMessages(list: seq<Conversation>): nat {
    if list == [] then 0 else |list[0].messages| + TotalMessages(list[1..])
  }

  /** The sizes of the partitions of `log` for the phones of `list`. */
  function PartitionSizes(log: seq<Message>, list: seq<Conversation>): nat {
    if list == [] then 0 else |MessagesOf(log, list[0].phone)| + PartitionSizes(log, list[1..])
  }

  /** How many conversations of `list` have phone `phone`. */
  function PhoneCount(list: seq<Conversation>, phone: string): nat {
    if list == [] then 0 else (if list[0].phone == phone then 1 else 0) + PhoneCount(list[1..], phone)
  }

  lemma {:induction false} TotalIsPartitionSizes(log: seq<Message>, list: seq<Conversation>)
    requires forall j :: 0 <= j < |list| ==> IsThreadOf(log, list[j])
    ensures TotalMessages(list) == PartitionSizes(log, list)
  {
    if list != [] {
      assert |multiset(list[0].messages)| == |multiset(MessagesOf(log, list[0].phone))|;
      TotalIsPartitionSizes(log, list[1..]);
    }
  }

  lemma {:induction false} PartitionSizesAppend(log: seq<Message>, m: Message, list: seq<Conversation>)
    ensures PartitionSizes(log + [m], list) == PartitionSizes(log, list) + PhoneCount(list, Key(m))
  {
    if list != [] {
      AppendJoinsOneThread(log, m, list[0].phone);
      PartitionSizesAppend(log, m, list[1..]);
    }
  }

  lemma {:induction false} PartitionSizesOfEmptyLog(list: seq<Conversation>)
    ensures PartitionSizes([], list) == 0
  {
    if list != [] {
      PartitionSizesOfEmptyLog(list[1..]);
    }
  }

  lemma {:induction false} PhoneOccursOnce(list: seq<Conversation>, j: nat)
    requires DistinctPhones(list) && j < |list|
    ensures PhoneCount(list, list[j].phone) == 1
  {
    if j == 0 {
      PhoneAbsent(list[1..], list[0].phone);
    } else {
      PhoneOccursOnce(list[1..], j - 1);
    }
  }

  lemma {:induction false} PhoneAbsent(list: seq<Conversation>, phone: string)
    requires forall j :: 0 <= j < |list| ==> list[j].phone != phone
    ensures PhoneCount(list, phone) == 0
  {
    if list != [] {
      PhoneAbsent(list[1..], phone);
    }
  }

  lemma {:induction false} PartitionSizesCoverLog(log: seq<Message>, list: seq<Conversation>)
    requires DistinctPhones(list)
    requires forall m :: m in log ==> exists j :: 0 <= j < |list| && list[j].phone == Key(m)
    ensures PartitionSizes(log, list) == |log|
    decreases |log|
  {
    if log == [] {
      PartitionSizesOfEmptyLog(list);
    } else {
      var init, last := log[..|log| - 1], log[|log| - 1];
      assert log == init + [last];
      assert last in log;
      var j :| 0 <= j < |list| && list[j].phone == Key(last);
      PhoneOccursOnce(list, j);
      PartitionSizesAppend(init, last, list);
      PartitionSizesCoverLog(init, list);
    }
  }

  /** Lines 42-53 lose no record and invent none: the conversations hold as many messages as the log. */
  lemma ListingCountsEveryMessage(log: seq<Message>, list: seq<Conversation>)
    requires Groups(log, list)
    ensures TotalMessages(list) == |log|
  {
    TotalIsPartitionSizes(log, list);
    PartitionSizesCoverLog(log, list);
  }

  // ---------------------------------------------------------------------------
  // Example

  /** Two records whose phones normalise alike form a single conversation of two messages. */
  lemma SameKeyShareConversation(m1: Message, m2: Message, list: seq<Conversation>)
    requires Key(m1) == Key(m2)
    requires Groups([m1, m2], list)
    ensures |list| == 1 && list[0].phone == Key(m1) && |list[0].messages| == 2
  {
    var log := [m1, m2];
    assert m1 in log;
    forall j | 0 <= j < |list| ensures list[j].phone == Key(m1) {
      assert list[j].messages[0] in list[j].messages;
      ThreadMembers(log, list[j], list[j].messages[0]);
    }
    ListingCountsEveryMessage(log, list);
    assert TotalMessages(list) == |list[0].messages| + TotalMessages(list[1..]);
  }

  /** A local and an international spelling of one mobile number have the same key. */
  lemma LocalAndInternationalSameKey(m1: Message, m2: Message)
    requires m1.phone == "3001234567" && m2.phone == "573001234567"
    ensures Key(m1) == Key(m2) == "573001234567"
  {
    LocalMobileExample();
    InternationalExample();
  }
}
