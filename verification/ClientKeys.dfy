/**
 What the cache key of `LLMClient.complete` (core/llm/client.py) tells apart: provider, model and messages joined with
 ':' and '|', which the messages may hold themselves.
 */
module ClientKeys {
  import opened Client

  predicate Without(c: char, s: string) {
    c !in s
  }

  /** Up to the first `c` two texts that agree agree. */
  lemma SplitsOnce(c: char, x: string, t: string, y: string, u: string)
    requires Without(c, x) && Without(c, y) && x + t == y + u
    requires (t == "" || t[0] == c) && (u == "" || u[0] == c)
    ensures x == y && t == u
  {
    var s := x + t;
    assert forall i | 0 <= i < |x| :: s[i] == x[i];
    assert forall i | 0 <= i < |y| :: s[i] == y[i];
    assert t != "" ==> s[|x|] == c;
    assert u != "" ==> s[|y|] == c;
    assert |x| == |y|;
    assert x == s[..|x|] && y == s[..|y|] && t == s[|x|..] && u == s[|y|..];
  }

  /** A role, as it is used: a word. */
  predicate Role(r: string) {
    Without(':', r) && Without('|', r)
  }

  ghost predicate Roles(messages: seq<Message>) {
    forall i | 0 <= i < |messages| :: Role(messages[i].role)
  }

  function Line(m: Message): string {
    m.role + ":" + m.content
  }

  function More(messages: seq<Message>): string {
    if messages == [] then "" else "|" + Texts(messages)
  }

  lemma TextsFirst(messages: seq<Message>)
    requires messages != []
    ensures Texts(messages) == Line(messages[0]) + More(messages[1..])
  {
  }

  lemma LineSplits(m: Message, t: string, n: Message, u: string)
    requires Role(m.role) && Role(n.role) && Line(m) + t == Line(n) + u
    ensures m.role == n.role && m.content + t == n.content + u
  {
    assert Line(m) + t == m.role + (":" + m.content + t);
    assert Line(n) + u == n.role + (":" + n.content + u);
    SplitsOnce(':', m.role, ":" + m.content + t, n.role, ":" + n.content + u);
    assert (":" + m.content + t)[1..] == m.content + t && (":" + n.content + u)[1..] == n.content + u;
  }

  /** No message has a bar in it. */
  ghost predicate NoBars(messages: seq<Message>) {
    Roles(messages) && forall i | 0 <= i < |messages| :: Without('|', messages[i].content)
  }

  /** Conversations without a bar in their messages have the same text only if they are the same. */
  lemma {:induction false} TextsTellApart(a: seq<Message>, b: seq<Message>)
    requires NoBars(a) && NoBars(b) && Texts(a) == Texts(b)
    ensures a == b
  {
    if a != [] && b != [] {
      hide Texts, Without;
      TextsFirst(a);
      TextsFirst(b);
      LineSplits(a[0], More(a[1..]), b[0], More(b[1..]));
      SplitsOnce('|', a[0].content, More(a[1..]), b[0].content, More(b[1..]));
      SameMore(a[1..], b[1..]);
      TextsTellApart(a[1..], b[1..]);
      assert a == [a[0]] + a[1..] && b == [b[0]] + b[1..];
    }
  }

  lemma SameMore(a: seq<Message>, b: seq<Message>)
    requires More(a) == More(b)
    ensures Texts(a) == Texts(b)
  {
    assert a != [] ==> More(a)[1..] == Texts(a);
    assert b != [] ==> More(b)[1..] == Texts(b);
  }

  /** Provider and model are read off the key if neither has a colon in it. */
  lemma KeysTellApart(c: Config, d: Config, a: seq<Message>, b: seq<Message>)
    requires Without(':', c.provider) && Without(':', c.model) && Without(':', d.provider) && Without(':', d.model)
    requires NoBars(a) && NoBars(b) && CacheKey(c, a) == CacheKey(d, b)
    ensures c == d && a == b
  {
    hide Texts, Without;
    var restA, restB := ":" + Texts(a), ":" + Texts(b);
    assert CacheKey(c, a) == c.provider + (":" + c.model + restA);
    assert CacheKey(d, b) == d.provider + (":" + d.model + restB);
    SplitsOnce(':', c.provider, ":" + c.model + restA, d.provider, ":" + d.model + restB);
    assert (":" + c.model + restA)[1..] == c.model + restA && (":" + d.model + restB)[1..] == d.model + restB;
    SplitsOnce(':', c.model, restA, d.model, restB);
    assert restA[1..] == Texts(a) && restB[1..] == Texts(b);
    TextsTellApart(a, b);
  }

  // ---------------------------------------------------------------------------
  // One text for two conversations
  // ---------------------------------------------------------------------------

  ghost predicate ReadsAs(content: string, p: string, r: string, q: string) {
    Role(r) && content == p + ("|" + (r + (":" + q)))
  }

  /** The content could be the end of one message and the beginning of another. */
  ghost predicate HoldsABreak(content: string) {
    exists p, r, q :: ReadsAs(content, p, r, q)
  }

  ghost predicate SameText(messages: seq<Message>, other: seq<Message>) {
    Roles(other) && Texts(other) == Texts(messages)
  }

  lemma TextsOfOne(m: Message)
    ensures Texts([m]) == Line(m)
  {
  }

  lemma TextsOfTwo(m: Message, n: Message, rest: seq<Message>)
    ensures Texts([m, n] + rest) == Line(m) + ("|" + (Line(n) + More(rest)))
  {
    hide Texts;
    var all := [m, n] + rest;
    assert all[0] == m && all[1..] == [n] + rest && ([n] + rest)[1..] == rest;
    TextsFirst(all);
    TextsFirst([n] + rest);
  }

  /** Two messages in a row have the text of one that holds both. */
  lemma Merged(messages: seq<Message>) returns (other: seq<Message>)
    requires |messages| >= 2 && Roles(messages)
    ensures SameText(messages, other) && |other| == |messages| - 1
  {
    hide Texts;
    var m, n, rest := messages[0], messages[1], messages[2..];
    var both := Message(m.role, m.content + ("|" + Line(n)));
    other := [both] + rest;
    assert messages == [m, n] + rest;
    TextsOfTwo(m, n, rest);
    assert other[0] == both && other[1..] == rest;
    TextsFirst(other);
    assert Line(both) == Line(m) + ("|" + Line(n));
    assert Line(m) + ("|" + Line(n)) + More(rest) == Line(m) + ("|" + (Line(n) + More(rest)));
  }

  lemma Split(m: Message) returns (other: seq<Message>)
    requires Role(m.role) && HoldsABreak(m.content)
    ensures SameText([m], other) && |other| == 2
  {
    hide Texts, Role;
    var p, r, q :| ReadsAs(m.content, p, r, q);
    var first, second := Message(m.role, p), Message(r, q);
    other := [first, second];
    assert other == other + [];
    TextsOfTwo(first, second, []);
    TextsOfOne(m);
    assert Line(first) + ("|" + (Line(second) + "")) == m.role + ":" + (p + ("|" + (r + (":" + q))));
  }

  lemma MoreOf(rest: seq<Message>)
    requires rest != []
    ensures More(rest) == "|" + (rest[0].role + (":" + (rest[0].content + More(rest[1..]))))
  {
    hide Texts;
    TextsFirst(rest);
    assert More(rest) == "|" + Texts(rest);
    assert Texts(rest) == rest[0].role + (":" + (rest[0].content + More(rest[1..])));
  }

  lemma OneAgainstMore(m: Message, n: Message, rest: seq<Message>)
    requires Role(m.role) && Roles([n] + rest) && rest != [] && Texts([m]) == Texts([n] + rest)
    ensures HoldsABreak(m.content)
  {
    hide Texts, HoldsABreak, Role, More;
    TextsOfOne(m);
    TextsFirst([n] + rest);
    MoreOf(rest);
    assert ([n] + rest)[0] == n && ([n] + rest)[1] == rest[0] && ([n] + rest)[1..] == rest;
    var next, q := rest[0], rest[0].content + More(rest[1..]);
    assert Line(m) + "" == Line(m) && m.content + "" == m.content;
    LineSplits(m, "", n, More(rest));
    BreakFound(m.content, n.content, next.role, q);
  }

  lemma OneAgainstOne(m: Message, n: Message)
    requires Role(m.role) && Role(n.role) && Texts([m]) == Texts([n])
    ensures m == n
  {
    hide Texts, Role;
    TextsOfOne(m);
    TextsOfOne(n);
    assert Line(m) + "" == Line(m) && Line(n) + "" == Line(n);
    LineSplits(m, "", n, "");
    assert m.content + "" == m.content && n.content + "" == n.content;
  }

  lemma OneMessage(m: Message, other: seq<Message>)
    requires Role(m.role) && !HoldsABreak(m.content) && SameText([m], other)
    ensures other == [m]
  {
    hide Texts, HoldsABreak, Role;
    NoText();
    TextOfSome([m]);
    if |other| == 1 {
      assert other == [other[0]];
      OneAgainstOne(m, other[0]);
    } else if |other| > 1 {
      assert other == [other[0]] + other[1..];
      OneAgainstMore(m, other[0], other[1..]);
    }
  }

  lemma NoText()
    ensures Texts([]) == ""
  {
  }

  lemma BreakFound(content: string, p: string, r: string, q: string)
    requires ReadsAs(content, p, r, q)
    ensures HoldsABreak(content)
  {
  }

  lemma TextOfSome(messages: seq<Message>)
    requires messages != []
    ensures Texts(messages) != ""
  {
    TextsFirst(messages);
    assert Line(messages[0])[|messages[0].role|] == ':';
  }

  /** A conversation shares its key, under one configuration, with no other exactly if it is a single message whose
      content holds no `|word:`, or none: of two messages or more there is always another conversation, in which two of
      them are one. */
  lemma {:induction false} OwnKeyIff(messages: seq<Message>)
    requires Roles(messages)
    ensures (forall other | SameText(messages, other) :: other == messages)
       <==> messages == [] || (|messages| == 1 && !HoldsABreak(messages[0].content))
  {
    hide Texts, HoldsABreak, SameText, Role;
    if |messages| >= 2 {
      var other := Merged(messages);
    } else if |messages| == 1 {
      assert messages == [messages[0]];
      if HoldsABreak(messages[0].content) {
        var other := Split(messages[0]);
      } else {
        forall other | SameText(messages, other) ensures other == messages {
          OneMessage(messages[0], other);
        }
      }
    } else {
      forall other | SameText(messages, other) ensures other == messages {
        SameAsNone(other);
      }
    }
  }

  lemma SameAsNone(other: seq<Message>)
    requires SameText([], other)
    ensures other == []
  {
    hide Texts;
    NoText();
    if other != [] {
      TextOfSome(other);
    }
  }

  /** Two questions that a cached answer to one would answer both. */
  lemma TwoConversationsOneKey(c: Config)
    ensures var two := [Message("user", "a"), Message("user", "b")];
            var one := [Message("user", "a|user:b")];
            two != one && CacheKey(c, two) == CacheKey(c, one)
  {
    hide Texts;
    var first, second := Message("user", "a"), Message("user", "b");
    TextsOfTwo(first, second, []);
    TextsOfOne(Message("user", "a|user:b"));
    assert [first, second] + [] == [first, second];
    assert "user:a" + ("|" + ("user:b" + "")) == "user:a|user:b";
  }
}
