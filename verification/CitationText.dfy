/**
 Text as the citation patterns see it: single characters and closed bracket
 groups of digits, commas and whitespace.
 */
module CitationText {
  import opened Text

  /** `[\d,\s]` */
  predicate InGroup(c: char) {
    IsDigit(c) || c == ',' || IsSpace(c)
  }

  /** How many characters of a kind come first. */
  function Run(s: string): (n: nat)
    ensures n <= |s| && (n < |s| ==> !InGroup(s[n]))
    ensures forall i | 0 <= i < n :: InGroup(s[i])
  {
    if s != "" && InGroup(s[0]) then 1 + Run(s[1..]) else 0
  }

  /** `[\d,\s]*\]` matches here: a bracket before it would make a group. */
  predicate Closes(s: string) {
    Run(s) < |s| && s[Run(s)] == ']'
  }

  /** `\[[\d,\s]*\]` matches here. */
  predicate Opens(s: string) {
    s != "" && s[0] == '[' && Closes(s[1..])
  }

  function Inside(s: string): (g: string)
    requires Opens(s)
    ensures |g| + 2 <= |s| && forall i | 0 <= i < |g| :: InGroup(g[i])
  {
    s[1..1 + Run(s[1..])]
  }

  datatype Seg = Char(c: char) | Group(content: string)

  function Parse(s: string): seq<Seg>
    decreases |s|
  {
    if s == "" then []
    else if Opens(s) then [Group(Inside(s))] + Parse(s[|Inside(s)| + 2..])
    else [Char(s[0])] + Parse(s[1..])
  }

  function Show(seg: Seg): string {
    match seg
    case Char(c) => [c]
    case Group(content) => "[" + content + "]"
  }

  function Unparse(segs: seq<Seg>): string {
    if segs == [] then "" else Show(segs[0]) + Unparse(segs[1..])
  }

  /** Segments whose text reads back as they are.  `pending`: a bracket is open and only group characters
      have followed, so that a closing bracket would make one more group. */
  ghost predicate Fits(segs: seq<Seg>, pending: bool) {
    if segs == [] then true
    else match segs[0]
      case Group(content) => (forall i | 0 <= i < |content| :: InGroup(content[i])) && Fits(segs[1..], false)
      case Char(c) =>
        if c == '[' then Fits(segs[1..], true)
        else if c == ']' then !pending && Fits(segs[1..], false)
        else Fits(segs[1..], pending && InGroup(c))
  }

  lemma WholeGroup(s: string)
    requires Opens(s)
    ensures s == "[" + Inside(s) + "]" + s[|Inside(s)| + 2..]
  {
  }

  lemma {:induction false} UnparseParse(s: string)
    ensures Unparse(Parse(s)) == s
    decreases |s|
  {
    if s != "" {
      if Opens(s) {
        var g := Inside(s);
        hide Opens;
        UnparseParse(s[|g| + 2..]);
        assert s == "[" + g + "]" + s[|g| + 2..] by { WholeGroup(s); }
      } else {
        hide Opens;
        UnparseParse(s[1..]);
      }
    }
  }

  lemma {:induction false} ParseFits(s: string, pending: bool)
    requires pending ==> !Closes(s)
    ensures Fits(Parse(s), pending)
    decreases |s|
  {
    if s != "" {
      if Opens(s) {
        ParseFits(s[|Inside(s)| + 2..], false);
      } else {
        ParseFits(s[1..], if s[0] == '[' then true else pending && InGroup(s[0]) && s[0] != ']');
      }
    }
  }

  lemma RunOf(g: string, t: string)
    requires forall i | 0 <= i < |g| :: InGroup(g[i])
    requires t != "" && !InGroup(t[0])
    ensures Run(g + t) == |g|
  {
    assert (g + t)[|g|] == t[0];
    assert forall i | 0 <= i < |g| :: (g + t)[i] == g[i];
  }

  /** A closed group at the head reads back as one. */
  lemma GroupAtHead(g: string, t: string)
    requires forall i | 0 <= i < |g| :: InGroup(g[i])
    ensures var s := "[" + g + "]" + t; Opens(s) && Inside(s) == g && s[|g| + 2..] == t
  {
    var s := "[" + g + "]" + t;
    assert s[1..] == g + ("]" + t);
    RunOf(g, "]" + t);
  }

  lemma {:induction false} PendingNeverCloses(segs: seq<Seg>)
    requires Fits(segs, true)
    ensures !Closes(Unparse(segs))
  {
    if segs != [] {
      var s := Unparse(segs);
      match segs[0]
      case Group(content) => assert s[0] == '[';
      case Char(c) =>
        assert s[0] == c && s[1..] == Unparse(segs[1..]);
        if InGroup(c) {
          PendingNeverCloses(segs[1..]);
        }
    }
  }

  lemma NothingParsed()
    ensures Parse(Unparse([])) == []
  {
  }

  lemma ParseOpen(s: string)
    requires Opens(s)
    ensures Parse(s) == [Group(Inside(s))] + Parse(s[|Inside(s)| + 2..])
    ensures Parse(s)[1..] == Parse(s[|Inside(s)| + 2..])
  {
  }

  lemma ParseChar(s: string)
    requires s != "" && !Opens(s)
    ensures Parse(s) == [Char(s[0])] + Parse(s[1..]) && Parse(s)[1..] == Parse(s[1..])
  {
  }

  lemma UnparseFirst(seg: Seg, segs: seq<Seg>)
    ensures Unparse([seg] + segs) == Show(seg) + Unparse(segs)
  {
    assert ([seg] + segs)[1..] == segs;
  }

  lemma GroupRead(g: string, rest: seq<Seg>)
    requires forall i | 0 <= i < |g| :: InGroup(g[i])
    ensures Parse(Unparse([Group(g)] + rest)) == [Group(g)] + Parse(Unparse(rest))
  {
    hide Parse, Unparse, Opens, Inside;
    UnparseFirst(Group(g), rest);
    GroupAtHead(g, Unparse(rest));
    ParseOpen(Unparse([Group(g)] + rest));
  }

  lemma NothingOpens(c: char, rest: seq<Seg>)
    requires c == '[' ==> !Closes(Unparse(rest))
    ensures Parse(Unparse([Char(c)] + rest)) == [Char(c)] + Parse(Unparse(rest))
  {
    hide Parse, Closes;
    UnparseFirst(Char(c), rest);
    var s := Unparse([Char(c)] + rest);
    assert s[0] == c && s[1..] == Unparse(rest);
    ParseChar(s);
  }

  lemma {:induction false} Reparse(segs: seq<Seg>, pending: bool)
    requires Fits(segs, pending)
    ensures Parse(Unparse(segs)) == segs
  {
    hide Parse, Unparse, Closes;
    if segs == [] {
      NothingParsed();
    } else {
      var rest := segs[1..];
      assert segs == [segs[0]] + rest;
      match segs[0]
      case Group(content) =>
        GroupRead(content, rest);
        Reparse(rest, false);
      case Char(c) =>
        if c == '[' {
          PendingNeverCloses(rest);
        }
        NothingOpens(c, rest);
        Reparse(rest, if c == '[' then true else if c == ']' then false else pending && InGroup(c));
    }
  }

  /** Exactly the fitting segments read back as they are. */
  lemma ReadsBackIffFits(segs: seq<Seg>)
    ensures Parse(Unparse(segs)) == segs <==> Fits(segs, false)
  {
    if Fits(segs, false) {
      Reparse(segs, false);
    } else if Parse(Unparse(segs)) == segs {
      ParseFits(Unparse(segs), false);
    }
  }

  lemma {:induction false} NothingPendingIsEasier(segs: seq<Seg>)
    requires Fits(segs, true)
    ensures Fits(segs, false)
  {
    if segs != [] && segs[0].Char? && InGroup(segs[0].c) {
      NothingPendingIsEasier(segs[1..]);
    }
  }
}
