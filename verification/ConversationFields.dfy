// What the store keeps of a conversation besides its unread count: the last message, the time of it, the
// message up to which it was read, and its place in the user's index.
module ConversationFields {
  import opened Options
  import opened Decimals
  import opened ConversationKeys
  import opened Conversations
  import opened ConversationHistory

  // A field of the conversation as it stands in the store.
  function FieldOf(d: Data, user: Int64, conv: Conv, field: string): Option<int> {
    var fields := FieldsAt(d.hashes, KeyOf(user, conv));
    if field in fields then Some(fields[field]) else None
  }

  // The conversation's score in the user's index, by which conversations are listed.
  function ScoreOf(d: Data, user: Int64, conv: Conv): Option<int> {
    var scores := FieldsAt(d.sortedSets, IndexKey(user));
    if MemberOf(conv) in scores then Some(scores[MemberOf(conv)]) else None
  }

  datatype Touched = Touched(msg: int, now: int)

  // The message and time that an operation leaves in the user's conversation, if it touches it.
  function TouchOf(op: Op, user: Int64, conv: Conv): Option<Touched> {
    match op
    case Send(u, c, msg, now) => if u == user && c == conv then Some(Touched(msg, now)) else None
    case Receive(u, c, msg, now) => if u == user && c == conv then Some(Touched(msg, now)) else None
    case GroupMessage(members, _, group, msg, now) =>
      if user in members && conv == Group(group) then Some(Touched(msg, now)) else None
    case MarkRead(_, _, _) => None
  }

  // The last such operation of the history.
  function LastTouch(history: seq<Op>, user: Int64, conv: Conv): Option<Touched> {
    if history == [] then None
    else
      var last := TouchOf(history[|history| - 1], user, conv);
      if last.Some? then last else LastTouch(history[..|history| - 1], user, conv)
  }

  // The argument of the last time the user marked the conversation read.
  function LastRead(history: seq<Op>, user: Int64, conv: Conv): Option<int> {
    if history == [] then None
    else
      var op := history[|history| - 1];
      if op.MarkRead? && op.user == user && op.conv == conv then Some(op.lastRead)
      else LastRead(history[..|history| - 1], user, conv)
  }

  // The fields and the score after what happened to the conversation, and what they were before it.
  ghost predicate Holds(d: Data, user: Int64, conv: Conv, touch: Option<Touched>, read: Option<int>) {
    && FieldOf(d, user, conv, "last_read_msg_id") == read
    && FieldOf(d, user, conv, "last_msg_id") == (if touch.Some? then Some(touch.value.msg) else None)
    && FieldOf(d, user, conv, "update_at") == (if touch.Some? then Some(touch.value.now) else None)
    && ScoreOf(d, user, conv) == if touch.Some? then Some(touch.value.now) else None
  }

  lemma SetFieldOf(d: Data, user: Int64, conv: Conv, u: Int64, c: Conv, field: string, value: int, f: string)
    ensures var r := WithHSet(d, KeyOf(u, c), field, value);
      && FieldOf(r, user, conv, f) ==
        (if u == user && c == conv && f == field then Some(value) else FieldOf(d, user, conv, f))
      && ScoreOf(r, user, conv) == ScoreOf(d, user, conv)
  {
    if KeyOf(u, c) == KeyOf(user, conv) {
      KeyInjective(u, c, user, conv);
    }
    hide KeyOf, IndexKey, MemberOf;
  }

  lemma MemberInjective(c: Conv, e: Conv)
    requires MemberOf(c) == MemberOf(e)
    ensures c == e
  {
    assert MemberOf(c)[0] == Letter(c) && MemberOf(e)[0] == Letter(e);
    assert MemberOf(c)[2..] == Decimal(c.id) && MemberOf(e)[2..] == Decimal(e.id);
    DecimalInjective(c.id, e.id);
  }

  lemma AddScore(d: Data, user: Int64, conv: Conv, u: Int64, c: Conv, now: int, f: string)
    ensures var r := WithZAdd(d, IndexKey(u), MemberOf(c), now);
      && FieldOf(r, user, conv, f) == FieldOf(d, user, conv, f)
      && ScoreOf(r, user, conv) == if u == user && c == conv then Some(now) else ScoreOf(d, user, conv)
  {
    if IndexKey(u) == IndexKey(user) {
      IndexKeyInjective(u, user);
    }
    if MemberOf(c) == MemberOf(conv) {
      MemberInjective(c, conv);
    }
    hide KeyOf, IndexKey, MemberOf;
  }

  // A field other than the unread count after a touch.
  lemma TouchField(d: Data, user: Int64, conv: Conv, u: Int64, c: Conv, msg: int, now: int, unread: int, f: string)
    requires f != "unread_count"
    ensures var r, here := Touch(d, u, c, msg, now, unread), u == user && c == conv;
      && FieldOf(r, user, conv, f) ==
        (if here && f == "last_msg_id" then Some(msg)
         else if here && f == "update_at" then Some(now)
         else FieldOf(d, user, conv, f))
      && ScoreOf(r, user, conv) == if here then Some(now) else ScoreOf(d, user, conv)
  {
    var key := KeyOf(u, c);
    var first := WithHSet(d, key, "last_msg_id", msg);
    var updated := WithHSet(first, key, "update_at", now);
    var counted := if unread == 0 then updated else WithHIncrBy(updated, key, "unread_count", unread);
    var names := ("last_msg_id", "update_at", "unread_count");
    assert names.0 != names.1 && names.0 != names.2 && names.1 != names.2;
    hide FieldOf, ScoreOf, KeyOf, IndexKey, MemberOf, WithHSet, WithZAdd;
    SetFieldOf(d, user, conv, u, c, names.0, msg, f);
    SetFieldOf(first, user, conv, u, c, names.1, now, f);
    SetFieldOf(updated, user, conv, u, c, names.2, FieldOrZero(updated.hashes, key, names.2) + unread, f);
    AddScore(counted, user, conv, u, c, now, f);
  }

  lemma TouchHolds(d: Data, user: Int64, conv: Conv, u: Int64, c: Conv, msg: int, now: int, unread: int,
                   touch: Option<Touched>, read: Option<int>)
    requires Holds(d, user, conv, touch, read)
    ensures Holds(Touch(d, u, c, msg, now, unread), user, conv,
      if u == user && c == conv then Some(Touched(msg, now)) else touch, read)
  {
    hide FieldOf, ScoreOf, Touch;
    DifferentFields();
    TouchField(d, user, conv, u, c, msg, now, unread, "last_read_msg_id");
    TouchField(d, user, conv, u, c, msg, now, unread, "last_msg_id");
    TouchField(d, user, conv, u, c, msg, now, unread, "update_at");
  }

  lemma DifferentFields()
    ensures "last_read_msg_id" != "last_msg_id" && "last_read_msg_id" != "update_at" && "last_msg_id" != "update_at"
    ensures "unread_count" != "last_msg_id" && "unread_count" != "update_at" && "unread_count" != "last_read_msg_id"
  {
    assert |"last_read_msg_id"| == 16 && |"last_msg_id"| == 11 && |"update_at"| == 9 && |"unread_count"| == 12;
  }

  lemma InFrontOrLast(members: seq<Int64>, user: Int64)
    requires members != []
    ensures user in members <==> user in members[..|members| - 1] || user == members[|members| - 1]
  {
  }

  lemma {:induction false} TouchAllHolds(d: Data, user: Int64, conv: Conv, members: seq<Int64>, sender: Int64,
                                         group: Int64, msg: int, now: int, touch: Option<Touched>, read: Option<int>)
    requires Holds(d, user, conv, touch, read)
    ensures Holds(TouchAll(d, members, sender, group, msg, now), user, conv,
      if user in members && conv == Group(group) then Some(Touched(msg, now)) else touch, read)
  {
    if members != [] {
      var n := |members| - 1;
      var before := if user in members[..n] && conv == Group(group) then Some(Touched(msg, now)) else touch;
      TouchAllHolds(d, user, conv, members[..n], sender, group, msg, now, touch, read);
      InFrontOrLast(members, user);
      hide Holds, Touch, KeyOf;
      TouchHolds(TouchAll(d, members[..n], sender, group, msg, now), user, conv, members[n], Group(group), msg, now,
        if members[n] != sender then 1 else 0, before, read);
    }
  }

  lemma MarkReadHolds(d: Data, user: Int64, conv: Conv, u: Int64, c: Conv, lastRead: int,
                      touch: Option<Touched>, read: Option<int>)
    requires Holds(d, user, conv, touch, read)
    ensures Holds(Step(d, MarkRead(u, c, lastRead)), user, conv, touch,
      if u == user && c == conv then Some(lastRead) else read)
  {
    var zeroed := WithHSet(d, KeyOf(u, c), "unread_count", 0);
    hide FieldOf, ScoreOf, KeyOf, WithHSet;
    DifferentFields();
    SetFieldOf(d, user, conv, u, c, "unread_count", 0, "last_read_msg_id");
    SetFieldOf(d, user, conv, u, c, "unread_count", 0, "last_msg_id");
    SetFieldOf(d, user, conv, u, c, "unread_count", 0, "update_at");
    SetFieldOf(zeroed, user, conv, u, c, "last_read_msg_id", lastRead, "last_read_msg_id");
    SetFieldOf(zeroed, user, conv, u, c, "last_read_msg_id", lastRead, "last_msg_id");
    SetFieldOf(zeroed, user, conv, u, c, "last_read_msg_id", lastRead, "update_at");
  }

  // After any history a conversation's read position is the one it was last marked with, and its last
  // message, its time and its score in the index are those of the last message that touched it.
  lemma {:induction false} FieldsAreHistory(history: seq<Op>, user: Int64, conv: Conv)
    ensures Holds(After(history), user, conv, LastTouch(history, user, conv), LastRead(history, user, conv))
  {
    if history != [] {
      var before, op := history[..|history| - 1], history[|history| - 1];
      var d, touch, read := After(before), LastTouch(before, user, conv), LastRead(before, user, conv);
      FieldsAreHistory(before, user, conv);
      hide Holds, Touch, TouchAll;
      match op
      case Send(u, c, msg, now) => TouchHolds(d, user, conv, u, c, msg, now, 0, touch, read);
      case Receive(u, c, msg, now) => TouchHolds(d, user, conv, u, c, msg, now, 1, touch, read);
      case GroupMessage(members, sender, group, msg, now) =>
        TouchAllHolds(d, user, conv, members, sender, group, msg, now, touch, read);
      case MarkRead(u, c, lastRead) => MarkReadHolds(d, user, conv, u, c, lastRead, touch, read);
    }
  }
}
