// Conversations and their unread counts over a key-value store with hashes and sorted sets.
module ConversationKeys {
  import opened Decimals

  // A conversation of a user: with a peer or in a group.
  datatype Conv = Peer(id: Int64) | Group(id: Int64)

  // The services take both ids; a positive peer id wins.
  function ConvOf(peerId: Int64, groupId: Int64): (c: Conv)
    ensures Proper(c)
  {
    if peerId > 0 then Peer(peerId) else Group(groupId)
  }

  // Only positive peer ids make peer conversations.
  predicate Proper(c: Conv) {
    c.Peer? ==> c.id > 0
  }

  function Letter(c: Conv): char {
    if c.Peer? then 'p' else 'g'
  }

  // BuildConversationPeerMember, BuildConversationGroupMember
  function MemberOf(c: Conv): string {
    [Letter(c), ':'] + Decimal(c.id)
  }

  // BuildConversationPeerKey, BuildConversationGroupKey
  function KeyOf(user: Int64, c: Conv): string {
    "conv:" + (Decimal(user) + (":" + MemberOf(c)))
  }

  // BuildConversationIndexKey
  function IndexKey(user: Int64): string {
    "conv:" + (Decimal(user) + ":idx")
  }

  // How keys and members look.
  lemma KeyShapes(user: Int64, id: Int64)
    ensures KeyOf(user, Peer(id)) == "conv:" + Decimal(user) + ":p:" + Decimal(id)
    ensures KeyOf(user, Group(id)) == "conv:" + Decimal(user) + ":g:" + Decimal(id)
    ensures IndexKey(user) == "conv:" + Decimal(user) + ":idx"
    ensures MemberOf(Peer(id)) == "p:" + Decimal(id) && MemberOf(Group(id)) == "g:" + Decimal(id)
  {
    hide Decimal;
    assert ":" + ("p:" + Decimal(id)) == ":p:" + Decimal(id);
    assert ":" + ("g:" + Decimal(id)) == ":g:" + Decimal(id);
  }

  // parseMember
  function ParseMember(member: string): (Int64, Int64) {
    if |member| < 3 then (0, 0)
    else
      var id := ParsedValue(member[2..]);
      if member[0] == 'p' then (id, 0) else (0, id)
  }

  function ConvOfMember(member: string): (c: Conv)
    ensures Proper(c)
  {
    ConvOf(ParseMember(member).0, ParseMember(member).1)
  }

  predicate NoColon(s: string) {
    forall i :: 0 <= i < |s| ==> s[i] != ':'
  }

  lemma DecimalShape(n: int)
    ensures NoColon(Decimal(n)) && |Decimal(n)| >= 1
  {
    var s := Decimal(n);
    forall i | 0 <= i < |s|
      ensures s[i] != ':'
    {
      if n < 0 && i > 0 {
        assert s[i] == Digits(-n)[i - 1];
      }
    }
  }

  // The member parses back to the conversation, so the totals look under the key that the update used.
  lemma MemberParses(c: Conv)
    requires Proper(c)
    ensures ConvOfMember(MemberOf(c)) == c
  {
    DecimalShape(c.id);
    ParseDecimal(c.id);
    assert MemberOf(c)[2..] == Decimal(c.id);
  }

  // What stands before the first colon is determined.
  lemma SplitAtColon(a: string, r: string, b: string, s: string)
    requires NoColon(a) && NoColon(b) && r != "" && s != "" && r[0] == ':' && s[0] == ':'
    requires a + r == b + s
    ensures a == b && r == s
  {
    var whole := a + r;
    assert whole[|a|] == r[0] && (b + s)[|b|] == s[0];
    assert forall i :: 0 <= i < |a| ==> whole[i] == a[i];
    assert forall i :: 0 <= i < |b| ==> whole[i] == b[i];
    assert |a| == |b|;
    assert whole[..|a|] == a && (b + s)[..|b|] == b;
    assert whole[|a|..] == r && (b + s)[|b|..] == s;
  }

  lemma DecimalInjective(m: Int64, n: Int64)
    requires Decimal(m) == Decimal(n)
    ensures m == n
  {
    ParseDecimal(m);
    ParseDecimal(n);
  }

  lemma DropPrefix(p: string, a: string, b: string)
    requires p + a == p + b
    ensures a == b
  {
    assert (p + a)[|p|..] == a && (p + b)[|p|..] == b;
  }

  // Different users or conversations never share a key.
  lemma KeyInjective(u: Int64, c: Conv, v: Int64, d: Conv)
    requires KeyOf(u, c) == KeyOf(v, d)
    ensures u == v && c == d
  {
    hide Decimal;
    DropPrefix("conv:", Decimal(u) + (":" + MemberOf(c)), Decimal(v) + (":" + MemberOf(d)));
    DecimalShape(u);
    DecimalShape(v);
    SplitAtColon(Decimal(u), ":" + MemberOf(c), Decimal(v), ":" + MemberOf(d));
    DropPrefix(":", MemberOf(c), MemberOf(d));
    DecimalInjective(u, v);
    assert MemberOf(c)[0] == Letter(c) && MemberOf(d)[0] == Letter(d);
    assert MemberOf(c)[2..] == Decimal(c.id) && MemberOf(d)[2..] == Decimal(d.id);
    DecimalInjective(c.id, d.id);
  }

  lemma IndexKeyInjective(u: Int64, v: Int64)
    requires IndexKey(u) == IndexKey(v)
    ensures u == v
  {
    hide Decimal;
    DropPrefix("conv:", Decimal(u) + ":idx", Decimal(v) + ":idx");
    DecimalShape(u);
    DecimalShape(v);
    SplitAtColon(Decimal(u), ":idx", Decimal(v), ":idx");
    DecimalInjective(u, v);
  }

  // A hash never lies under an index key, nor a sorted set under a conversation key.
  lemma KeysApart(u: Int64, c: Conv, v: Int64)
    ensures KeyOf(u, c) != IndexKey(v)
  {
    hide Decimal;
    assert (":" + MemberOf(c))[1] == Letter(c) && ":idx"[1] == 'i';
    if KeyOf(u, c) == IndexKey(v) {
      DropPrefix("conv:", Decimal(u) + (":" + MemberOf(c)), Decimal(v) + ":idx");
      DecimalShape(u);
      DecimalShape(v);
      SplitAtColon(Decimal(u), ":" + MemberOf(c), Decimal(v), ":idx");
    }
  }
}

module Conversations {
  import opened Decimals
  import opened ConversationKeys

  // ---------- The store as a value ----------

  type Fields = map<string, int>

  datatype Data = Data(hashes: map<string, Fields>, sortedSets: map<string, Fields>)

  function FieldsAt(m: map<string, Fields>, key: string): Fields {
    if key in m then m[key] else map[]
  }

  function WithField(m: map<string, Fields>, key: string, field: string, value: int): map<string, Fields> {
    m[key := FieldsAt(m, key)[field := value]]
  }

  function FieldOrZero(m: map<string, Fields>, key: string, field: string): int {
    if field in FieldsAt(m, key) then FieldsAt(m, key)[field] else 0
  }

  function WithHSet(d: Data, key: string, field: string, value: int): Data {
    d.(hashes := WithField(d.hashes, key, field, value))
  }

  // A missing field counts as zero.
  function WithHIncrBy(d: Data, key: string, field: string, delta: int): Data {
    WithHSet(d, key, field, FieldOrZero(d.hashes, key, field) + delta)
  }

  function WithZAdd(d: Data, key: string, member: string, score: int): Data {
    d.(sortedSets := WithField(d.sortedSets, key, member, score))
  }

  class Store {
    var data: Data

    constructor ()
      ensures data == Data(map[], map[])
    {
      data := Data(map[], map[]);
    }

    method HSet(key: string, field: string, value: int)
      modifies this
      ensures data == WithHSet(old(data), key, field, value)
    {
      var fields := if key in data.hashes then data.hashes[key] else map[];
      data := data.(hashes := data.hashes[key := fields[field := value]]);
    }

    method HIncrBy(key: string, field: string, delta: int)
      modifies this
      ensures data == WithHIncrBy(old(data), key, field, delta)
    {
      var fields := if key in data.hashes then data.hashes[key] else map[];
      var before := if field in fields then fields[field] else 0;
      data := data.(hashes := data.hashes[key := fields[field := before + delta]]);
    }

    method ZAdd(key: string, member: string, score: int)
      modifies this
      ensures data == WithZAdd(old(data), key, member, score)
    {
      var members := if key in data.sortedSets then data.sortedSets[key] else map[];
      data := data.(sortedSets := data.sortedSets[key := members[member := score]]);
    }
  }

  // ---------- The service ----------

  datatype Op =
    | Send(user: Int64, conv: Conv, msg: int, now: int)
    | Receive(user: Int64, conv: Conv, msg: int, now: int)
    | GroupMessage(members: seq<Int64>, sender: Int64, group: Int64, msg: int, now: int)
    | MarkRead(user: Int64, conv: Conv, lastRead: int)

  // The conversation's last message and its place in the user's index.
  function Touch(d: Data, user: Int64, conv: Conv, msg: int, now: int, unread: int): Data {
    var key := KeyOf(user, conv);
    var updated := WithHSet(WithHSet(d, key, "last_msg_id", msg), key, "update_at", now);
    var counted := if unread == 0 then updated else WithHIncrBy(updated, key, "unread_count", unread);
    WithZAdd(counted, IndexKey(user), MemberOf(conv), now)
  }

  // Every member in turn; the sender's own count stays.
  function TouchAll(d: Data, members: seq<Int64>, sender: Int64, group: Int64, msg: int, now: int): Data {
    if members == [] then d
    else
      var n := |members| - 1;
      Touch(TouchAll(d, members[..n], sender, group, msg, now), members[n], Group(group), msg, now,
            if members[n] != sender then 1 else 0)
  }

  function Step(d: Data, op: Op): Data {
    match op
    case Send(u, c, msg, now) => Touch(d, u, c, msg, now, 0)
    case Receive(u, c, msg, now) => Touch(d, u, c, msg, now, 1)
    case GroupMessage(members, sender, group, msg, now) => TouchAll(d, members, sender, group, msg, now)
    case MarkRead(u, c, lastRead) =>
      var key := KeyOf(u, c);
      WithHSet(WithHSet(d, key, "unread_count", 0), key, "last_read_msg_id", lastRead)
  }

  // The user's unread count of a conversation as it stands in the store.
  function Unread(d: Data, user: Int64, conv: Conv): int {
    FieldOrZero(d.hashes, KeyOf(user, conv), "unread_count")
  }

  // The members of the user's index.
  function Index(d: Data, user: Int64): set<string> {
    FieldsAt(d.sortedSets, IndexKey(user)).Keys
  }

  ghost function SumUnread(d: Data, user: Int64, convs: set<Conv>): int
    decreases convs
  {
    if convs == {} then 0 else var c :| c in convs; Unread(d, user, c) + SumUnread(d, user, convs - {c})
  }

  lemma {:induction false} SumUnreadSplit(d: Data, user: Int64, convs: set<Conv>, c: Conv)
    requires c in convs
    ensures SumUnread(d, user, convs) == Unread(d, user, c) + SumUnread(d, user, convs - {c})
    decreases convs
  {
    var e :| e in convs && SumUnread(d, user, convs) == Unread(d, user, e) + SumUnread(d, user, convs - {e});
    if e != c {
      SumUnreadSplit(d, user, convs - {e}, c);
      SumUnreadSplit(d, user, convs - {c}, e);
      assert convs - {e} - {c} == convs - {c} - {e};
    }
  }

  // The same over members of an index, each read back as the conversation it names.
  ghost function SumMembers(d: Data, user: Int64, members: set<string>): int
    decreases members
  {
    if members == {} then 0
    else var m :| m in members; Unread(d, user, ConvOfMember(m)) + SumMembers(d, user, members - {m})
  }

  lemma {:induction false} SumMembersSplit(d: Data, user: Int64, members: set<string>, m: string)
    requires m in members
    ensures SumMembers(d, user, members) == Unread(d, user, ConvOfMember(m)) + SumMembers(d, user, members - {m})
    decreases members
  {
    var e :| e in members &&
      SumMembers(d, user, members) == Unread(d, user, ConvOfMember(e)) + SumMembers(d, user, members - {e});
    if e != m {
      SumMembersSplit(d, user, members - {e}, m);
      SumMembersSplit(d, user, members - {m}, e);
      assert members - {e} - {m} == members - {m} - {e};
    }
  }

  // Members of proper conversations name different conversations.
  lemma {:induction false} SumsOverIndex(d: Data, user: Int64, members: set<string>, convs: set<Conv>)
    requires forall m :: m in members ==> MemberOf(ConvOfMember(m)) == m
    requires convs == set m | m in members :: ConvOfMember(m)
    ensures SumMembers(d, user, members) == SumUnread(d, user, convs)
    decreases members
  {
    hide Unread, MemberOf, ConvOfMember;
    if members == {} {
      assert convs == {};
    } else {
      var m :| m in members;
      var c := ConvOfMember(m);
      SumMembersSplit(d, user, members, m);
      SumUnreadSplit(d, user, convs, c);
      assert convs - {c} == set n | n in members - {m} :: ConvOfMember(n);
      SumsOverIndex(d, user, members - {m}, convs - {c});
    }
  }

  // The index of the user holds members of proper conversations only.
  ghost predicate ProperIndex(d: Data, user: Int64) {
    forall m :: m in Index(d, user) ==> MemberOf(ConvOfMember(m)) == m
  }

  ghost function IndexedConvs(d: Data, user: Int64): set<Conv> {
    set m | m in Index(d, user) :: ConvOfMember(m)
  }

  class ConversationService {
    const store: Store

    constructor (store: Store)
      ensures this.store == store
    {
      this.store := store;
    }

    method UpdateConversationForSender(user: Int64, peerId: Int64, groupId: Int64, msg: int, now: int)
      modifies store
      ensures store.data == Step(old(store.data), Send(user, ConvOf(peerId, groupId), msg, now))
    {
      var conv := ConvOf(peerId, groupId);
      store.HSet(KeyOf(user, conv), "last_msg_id", msg);
      store.HSet(KeyOf(user, conv), "update_at", now);
      store.ZAdd(IndexKey(user), MemberOf(conv), now);
    }

    method UpdateConversationForReceiver(user: Int64, peerId: Int64, groupId: Int64, msg: int, now: int)
      modifies store
      ensures store.data == Step(old(store.data), Receive(user, ConvOf(peerId, groupId), msg, now))
    {
      var conv := ConvOf(peerId, groupId);
      store.HSet(KeyOf(user, conv), "last_msg_id", msg);
      store.HSet(KeyOf(user, conv), "update_at", now);
      store.HIncrBy(KeyOf(user, conv), "unread_count", 1);
      store.ZAdd(IndexKey(user), MemberOf(conv), now);
    }

    method UpdateConversationForGroupMembers(members: seq<Int64>, sender: Int64, group: Int64, msg: int, now: int)
      modifies store
      ensures store.data == Step(old(store.data), GroupMessage(members, sender, group, msg, now))
    {
      hide Touch;
      for i := 0 to |members|
        invariant store.data == TouchAll(old(store.data), members[..i], sender, group, msg, now)
      {
        TouchMember(members[i], sender, group, msg, now);
        assert members[..i + 1][..i] == members[..i];
      }
      assert members[..|members|] == members;
    }

    // One turn of the loop over the members.
    method TouchMember(user: Int64, sender: Int64, group: Int64, msg: int, now: int)
      modifies store
      ensures store.data == Touch(old(store.data), user, Group(group), msg, now, if user != sender then 1 else 0)
    {
      store.HSet(KeyOf(user, Group(group)), "last_msg_id", msg);
      store.HSet(KeyOf(user, Group(group)), "update_at", now);
      if user != sender {
        store.HIncrBy(KeyOf(user, Group(group)), "unread_count", 1);
      }
      store.ZAdd(IndexKey(user), MemberOf(Group(group)), now);
    }

    method MarkRead(user: Int64, peerId: Int64, groupId: Int64, lastRead: int)
      modifies store
      ensures store.data == Step(old(store.data), Op.MarkRead(user, ConvOf(peerId, groupId), lastRead))
    {
      var conv := ConvOf(peerId, groupId);
      store.HSet(KeyOf(user, conv), "unread_count", 0);
      store.HSet(KeyOf(user, conv), "last_read_msg_id", lastRead);
    }

    // GetTotalUnreadCount: the members of the index are parsed back and looked up, in some order.
    method GetTotalUnreadCount(user: Int64) returns (total: int)
      ensures total == SumMembers(store.data, user, Index(store.data, user))
    {
      total := 0;
      ghost var all := Index(store.data, user);
      var members := if IndexKey(user) in store.data.sortedSets then store.data.sortedSets[IndexKey(user)].Keys else {};
      while members != {}
        invariant total + SumMembers(store.data, user, members) == SumMembers(store.data, user, all)
        decreases members
      {
        var m :| m in members;
        var key := KeyOf(user, ConvOfMember(m));
        SumMembersSplit(store.data, user, members, m);
        if key in store.data.hashes && "unread_count" in store.data.hashes[key] {
          total := total + store.data.hashes[key]["unread_count"];
        }
        members := members - {m};
      }
    }
  }
}

// What the store says after any history of operations.
module ConversationHistory {
  import opened Decimals
  import opened ConversationKeys
  import opened Conversations

  ghost function After(history: seq<Op>): Data {
    if history == [] then Data(map[], map[]) else Step(After(history[..|history| - 1]), history[|history| - 1])
  }

  // Operations come with proper conversations, which ConvOf guarantees.
  predicate ProperOp(op: Op) {
    match op
    case Send(_, c, _, _) => Proper(c)
    case Receive(_, c, _, _) => Proper(c)
    case GroupMessage(_, _, _, _, _) => true
    case MarkRead(_, c, _) => Proper(c)
  }

  predicate AllProper(history: seq<Op>) {
    forall i :: 0 <= i < |history| ==> ProperOp(history[i])
  }

  // How often the user is listed.
  function Times(members: seq<Int64>, user: Int64): nat {
    if members == [] then 0 else Times(members[..|members| - 1], user) + if members[|members| - 1] == user then 1 else 0
  }

  // What one operation adds to the user's unread messages of the conversation.
  function Received(op: Op, user: Int64, conv: Conv): nat {
    match op
    case Receive(u, c, _, _) => if u == user && c == conv then 1 else 0
    case GroupMessage(members, sender, group, _, _) =>
      if conv == Group(group) && user != sender then Times(members, user) else 0
    case _ => 0
  }

  predicate Reads(op: Op, user: Int64, conv: Conv) {
    op.MarkRead? && op.user == user && op.conv == conv
  }

  // The messages received since the last time the conversation was marked read.
  function SinceRead(history: seq<Op>, user: Int64, conv: Conv): nat {
    if history == [] then 0
    else
      var before, op := history[..|history| - 1], history[|history| - 1];
      if Reads(op, user, conv) then 0 else SinceRead(before, user, conv) + Received(op, user, conv)
  }

  lemma SetField(d: Data, user: Int64, conv: Conv, u: Int64, c: Conv, field: string, value: int)
    ensures Unread(WithHSet(d, KeyOf(u, c), field, value), user, conv) ==
      if u == user && c == conv && field == "unread_count" then value else Unread(d, user, conv)
  {
    if KeyOf(u, c) == KeyOf(user, conv) {
      KeyInjective(u, c, user, conv);
    }
    hide KeyOf;
  }

  lemma TouchUnread(d: Data, user: Int64, conv: Conv, u: Int64, c: Conv, msg: int, now: int, unread: int)
    ensures Unread(Touch(d, u, c, msg, now, unread), user, conv) ==
      Unread(d, user, conv) + if u == user && c == conv then unread else 0
  {
    var key := KeyOf(u, c);
    var first := WithHSet(d, key, "last_msg_id", msg);
    var updated := WithHSet(first, key, "update_at", now);
    SetField(d, user, conv, u, c, "last_msg_id", msg);
    SetField(first, user, conv, u, c, "update_at", now);
    SetField(updated, user, conv, u, c, "unread_count", Unread(updated, u, c) + unread);
    hide KeyOf;
  }

  lemma {:induction false} TouchAllUnread(d: Data, user: Int64, conv: Conv, members: seq<Int64>, sender: Int64,
                                          group: Int64, msg: int, now: int)
    ensures Unread(TouchAll(d, members, sender, group, msg, now), user, conv) ==
      Unread(d, user, conv) + if conv == Group(group) && user != sender then Times(members, user) else 0
  {
    if members != [] {
      var n := |members| - 1;
      TouchAllUnread(d, user, conv, members[..n], sender, group, msg, now);
      hide Unread, Touch;
      TouchUnread(TouchAll(d, members[..n], sender, group, msg, now), user, conv, members[n], Group(group), msg, now,
        if members[n] != sender then 1 else 0);
    }
  }

  lemma StepUnread(d: Data, op: Op, user: Int64, conv: Conv)
    ensures Unread(Step(d, op), user, conv) ==
      if Reads(op, user, conv) then 0 else Unread(d, user, conv) + Received(op, user, conv)
  {
    hide Unread, Touch, TouchAll;
    match op
    case Send(u, c, msg, now) => TouchUnread(d, user, conv, u, c, msg, now, 0);
    case Receive(u, c, msg, now) => TouchUnread(d, user, conv, u, c, msg, now, 1);
    case GroupMessage(members, sender, group, msg, now) =>
      TouchAllUnread(d, user, conv, members, sender, group, msg, now);
    case MarkRead(u, c, lastRead) =>
      SetField(d, user, conv, u, c, "unread_count", 0);
      SetField(WithHSet(d, KeyOf(u, c), "unread_count", 0), user, conv, u, c, "last_read_msg_id", lastRead);
  }

  // The unread count is the number of messages received since the conversation was last marked read.
  lemma {:induction false} UnreadIsSinceRead(history: seq<Op>, user: Int64, conv: Conv)
    ensures Unread(After(history), user, conv) == SinceRead(history, user, conv)
  {
    if history == [] {
    } else {
      UnreadIsSinceRead(history[..|history| - 1], user, conv);
      StepUnread(After(history[..|history| - 1]), history[|history| - 1], user, conv);
      hide Unread, Step;
    }
  }

  // ---------- The index ----------

  // A user's index names proper conversations, among them every one with unread messages.
  ghost predicate IndexOk(d: Data, user: Int64) {
    ProperIndex(d, user) && forall c :: Proper(c) && Unread(d, user, c) > 0 ==> MemberOf(c) in Index(d, user)
  }

  lemma TouchIndex(d: Data, user: Int64, u: Int64, c: Conv, msg: int, now: int, unread: int)
    ensures Index(Touch(d, u, c, msg, now, unread), user) == Index(d, user) + if u == user then {MemberOf(c)} else {}
  {
    if IndexKey(u) == IndexKey(user) {
      IndexKeyInjective(u, user);
    }
    hide KeyOf, IndexKey, MemberOf;
  }

  lemma TouchIndexOk(d: Data, user: Int64, u: Int64, c: Conv, msg: int, now: int, unread: int)
    requires IndexOk(d, user) && Proper(c)
    ensures IndexOk(Touch(d, u, c, msg, now, unread), user)
  {
    TouchIndex(d, user, u, c, msg, now, unread);
    MemberParses(c);
    hide Touch, Unread, MemberOf, ConvOfMember, Index;
    forall e
      ensures Unread(Touch(d, u, c, msg, now, unread), user, e) ==
        Unread(d, user, e) + if u == user && c == e then unread else 0
    {
      TouchUnread(d, user, e, u, c, msg, now, unread);
    }
  }

  lemma {:induction false} TouchAllIndexOk(d: Data, user: Int64, members: seq<Int64>, sender: Int64, group: Int64,
                                           msg: int, now: int)
    requires IndexOk(d, user)
    ensures IndexOk(TouchAll(d, members, sender, group, msg, now), user)
  {
    if members != [] {
      var n := |members| - 1;
      TouchAllIndexOk(d, user, members[..n], sender, group, msg, now);
      hide IndexOk, Touch;
      TouchIndexOk(TouchAll(d, members[..n], sender, group, msg, now), user, members[n], Group(group), msg, now,
        if members[n] != sender then 1 else 0);
    }
  }

  lemma MarkReadIndexOk(d: Data, user: Int64, u: Int64, c: Conv, lastRead: int)
    requires IndexOk(d, user)
    ensures IndexOk(Step(d, MarkRead(u, c, lastRead)), user)
  {
    var r := Step(d, MarkRead(u, c, lastRead));
    assert Index(r, user) == Index(d, user);
    forall e
      ensures Unread(r, user, e) <= Unread(d, user, e) || Unread(r, user, e) == 0
    {
      StepUnread(d, MarkRead(u, c, lastRead), user, e);
    }
    hide Step, Unread, Index, MemberOf, ConvOfMember;
  }

  lemma {:induction false} IndexHolds(history: seq<Op>, user: Int64)
    requires AllProper(history)
    ensures IndexOk(After(history), user)
  {
    if history != [] {
      var before, op := history[..|history| - 1], history[|history| - 1];
      assert AllProper(before);
      IndexHolds(before, user);
      assert ProperOp(op);
      hide IndexOk, Touch, TouchAll;
      match op
      case Send(u, c, msg, now) => TouchIndexOk(After(before), user, u, c, msg, now, 0);
      case Receive(u, c, msg, now) => TouchIndexOk(After(before), user, u, c, msg, now, 1);
      case GroupMessage(members, sender, group, msg, now) =>
        TouchAllIndexOk(After(before), user, members, sender, group, msg, now);
      case MarkRead(u, c, lastRead) => MarkReadIndexOk(After(before), user, u, c, lastRead);
    }
  }

  ghost function SumSinceRead(history: seq<Op>, user: Int64, convs: set<Conv>): nat
    decreases convs
  {
    if convs == {} then 0
    else var c :| c in convs; SinceRead(history, user, c) + SumSinceRead(history, user, convs - {c})
  }

  lemma {:induction false} SumSplit(history: seq<Op>, user: Int64, convs: set<Conv>, c: Conv)
    requires c in convs
    ensures SumSinceRead(history, user, convs) == SinceRead(history, user, c) + SumSinceRead(history, user, convs - {c})
    decreases convs
  {
    var e :| e in convs &&
      SumSinceRead(history, user, convs) == SinceRead(history, user, e) + SumSinceRead(history, user, convs - {e});
    if e != c {
      SumSplit(history, user, convs - {e}, c);
      SumSplit(history, user, convs - {c}, e);
      assert convs - {e} - {c} == convs - {c} - {e};
    }
  }

  // Leaving out conversations without unread messages does not change the sum.
  lemma {:induction false} SumsAgree(history: seq<Op>, user: Int64, indexed: set<Conv>, convs: set<Conv>)
    requires forall c :: c in convs && c !in indexed ==> SinceRead(history, user, c) == 0
    requires forall c :: c in indexed && c !in convs ==> SinceRead(history, user, c) == 0
    ensures SumUnread(After(history), user, indexed) == SumSinceRead(history, user, convs)
    decreases indexed + convs
  {
    hide SinceRead, Unread, After;
    if indexed + convs != {} {
      var c :| c in indexed + convs;
      UnreadIsSinceRead(history, user, c);
      if c in indexed {
        SumUnreadSplit(After(history), user, indexed, c);
      } else {
        assert indexed - {c} == indexed;
      }
      if c in convs {
        SumSplit(history, user, convs, c);
      } else {
        assert convs - {c} == convs;
      }
      assert indexed - {c} + (convs - {c}) == indexed + convs - {c};
      SumsAgree(history, user, indexed - {c}, convs - {c});
    }
  }

  // The total that GetTotalUnreadCount computes from the index is the number of messages received and not
  // yet read in all of the user's conversations, whichever finite set covers those with unread messages.
  lemma TotalIsAllUnread(history: seq<Op>, user: Int64, convs: set<Conv>)
    requires AllProper(history)
    requires forall c :: c in convs ==> Proper(c)
    requires forall c :: Proper(c) && SinceRead(history, user, c) > 0 ==> c in convs
    ensures SumMembers(After(history), user, Index(After(history), user)) == SumSinceRead(history, user, convs)
  {
    IndexHolds(history, user);
    var d := After(history);
    var indexed := IndexedConvs(d, user);
    SumsOverIndex(d, user, Index(d, user), indexed);
    hide After, SinceRead, Unread, Index;
    forall c | c in convs && c !in indexed
      ensures SinceRead(history, user, c) == 0
    {
      UnreadIsSinceRead(history, user, c);
      MemberParses(c);
    }
    SumsAgree(history, user, indexed, convs);
  }
}
