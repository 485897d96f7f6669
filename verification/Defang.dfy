/** `defang_injection_delimiters` (core/security/content_sanitizer.py): three chained substitutions. */
module Defang {
  import opened Text
  import opened Substitution

  function ChatRule(name: string): Rule {
    Rule("<|" + name + "|>", "<[defanged:" + name + "]>")
  }

  const CHATML := [ChatRule("im_start"), ChatRule("im_end"), ChatRule("system"), ChatRule("assistant"),
      ChatRule("user")]
  const INST := [Rule("[INST]", "[defanged_inst]"), Rule("[/INST]", "[defanged_inst]")]
  const SYS := [Rule("<SYS>>", "<defanged_sys>"), Rule("</SYS>>", "<defanged_sys>")]

  const MARKERS := [
    "<|im_start|>", "<|im_end|>", "<|system|>", "<|assistant|>", "<|user|>", "[INST]", "[/INST]", "<SYS>>", "</SYS>>"]

  function DefangDelimiters(text: string): string {
    Sub(SYS, Sub(INST, Sub(CHATML, text)))
  }

  predicate Clean(text: string) {
    forall m | m in MARKERS :: !Occurs(m, text)
  }

  /** How a marker looks: an opening bracket, a second character no replacement has there, and no other bracket. */
  predicate MarkerShape(m: string) {
    && |m| >= 2 && m[0] in "<[" && m[1] in "|I/S"
    && forall i | 1 <= i < |m| :: m[i] != '<' && m[i] != '['
  }

  predicate ReplacementShape(r: string) {
    && r != "" && r[0] in "<["
    && forall i | 0 <= i < |r| && (r[i] == '<' || r[i] == '[') :: i + 1 < |r| && r[i + 1] in "[d"
  }

  predicate InShape(rules: seq<Rule>) {
    forall k | 0 <= k < |rules| :: MarkerShape(rules[k].token) && ReplacementShape(rules[k].replacement)
  }

  lemma ChatShape(name: string)
    requires forall i | 0 <= i < |name| :: name[i] != '<' && name[i] != '['
    ensures MarkerShape(ChatRule(name).token) && ReplacementShape(ChatRule(name).replacement)
  {
    var token, r := ChatRule(name).token, ChatRule(name).replacement;
    assert token[0] == '<' && token[1] == '|';
    assert r[0] == '<' && r[1] == '[' && r[2] == 'd';
  }

  lemma ChatMLShape()
    ensures InShape(CHATML)
  {
    hide MarkerShape, ReplacementShape;
    ChatShape("im_start");
    ChatShape("im_end");
    ChatShape("system");
    ChatShape("assistant");
    ChatShape("user");
  }

  lemma LlamaShape()
    ensures InShape(INST) && InShape(SYS)
  {
    hide MarkerShape, ReplacementShape;
    assert MarkerShape("[INST]") && MarkerShape("[/INST]") by { InstTokens(); }
    assert MarkerShape("<SYS>>") && MarkerShape("</SYS>>") by { SysTokens(); }
    assert ReplacementShape("[defanged_inst]") && ReplacementShape("<defanged_sys>") by { LlamaReplacements(); }
  }

  lemma InstTokens()
    ensures MarkerShape("[INST]") && MarkerShape("[/INST]")
  {
    assert "[INST]"[0] == '[' && "[INST]"[1] == 'I' && "[/INST]"[0] == '[' && "[/INST]"[1] == '/';
  }

  lemma SysTokens()
    ensures MarkerShape("<SYS>>") && MarkerShape("</SYS>>")
  {
    assert "<SYS>>"[0] == '<' && "<SYS>>"[1] == 'S' && "</SYS>>"[0] == '<' && "</SYS>>"[1] == '/';
  }

  lemma LlamaReplacements()
    ensures ReplacementShape("[defanged_inst]") && ReplacementShape("<defanged_sys>")
  {
    assert "[defanged_inst]"[0] == '[' && "[defanged_inst]"[1] == 'd';
    assert "<defanged_sys>"[0] == '<' && "<defanged_sys>"[1] == 'd';
  }

  lemma ShapesAreSafe(rules: seq<Rule>, m: string)
    requires InShape(rules) && MarkerShape(m)
    ensures Safe(rules, m)
  {
    forall k | 0 <= k < |rules| ensures Harmless(rules[k].replacement, m) && rules[k].replacement[0] !in m[1..] {
      assert ReplacementShape(rules[k].replacement);
    }
  }

  predicate TokenOf(rules: seq<Rule>, m: string) {
    exists k | 0 <= k < |rules| :: rules[k].token == m
  }

  /** The markers are the tokens of the three stages. */
  lemma MarkersAreTokens(m: string)
    ensures m in MARKERS <==> TokenOf(CHATML, m) || TokenOf(INST, m) || TokenOf(SYS, m)
  {
    assert CHATML[0].token == MARKERS[0] && CHATML[1].token == MARKERS[1] && CHATML[2].token == MARKERS[2];
    assert CHATML[3].token == MARKERS[3] && CHATML[4].token == MARKERS[4];
    assert INST[0].token == MARKERS[5] && INST[1].token == MARKERS[6];
    assert SYS[0].token == MARKERS[7] && SYS[1].token == MARKERS[8];
  }

  /** No stage makes a marker, and each removes its own. */
  lemma StageMakesNone(rules: seq<Rule>, m: string, s: string)
    requires InShape(rules) && MarkerShape(m) && Proper(rules) && Occurs(m, Sub(rules, s))
    ensures Occurs(m, s) && !TokenOf(rules, m)
  {
    ShapesAreSafe(rules, m);
    NothingNew(rules, m, s);
  }

  /** No marker survives, and none is put together by a replacement or a later stage. */
  lemma NoMarkerLeft(text: string)
    ensures Clean(DefangDelimiters(text))
  {
    forall m | m in MARKERS ensures !Occurs(m, DefangDelimiters(text)) {
      MarkersAreTokens(m);
      ChatMLShape();
      LlamaShape();
      if Occurs(m, DefangDelimiters(text)) {
        StageMakesNone(SYS, m, Sub(INST, Sub(CHATML, text)));
        StageMakesNone(INST, m, Sub(CHATML, text));
        StageMakesNone(CHATML, m, text);
      }
    }
  }

  /** A text is left alone exactly when it holds no marker. */
  lemma UnchangedIffClean(text: string)
    ensures DefangDelimiters(text) == text <==> Clean(text)
  {
    hide Sub, Occurs, MARKERS;
    NoMarkerLeft(text);
    if Clean(text) {
      forall m | TokenOf(CHATML, m) || TokenOf(INST, m) || TokenOf(SYS, m) ensures !Occurs(m, text) {
        MarkersAreTokens(m);
      }
      NoTokenNoChange(CHATML, text);
      NoTokenNoChange(INST, text);
      NoTokenNoChange(SYS, text);
    }
  }

  lemma Idempotent(text: string)
    ensures DefangDelimiters(DefangDelimiters(text)) == DefangDelimiters(text)
  {
    NoMarkerLeft(text);
    UnchangedIffClean(DefangDelimiters(text));
  }

  /** The two delimiter signals of `scan_external_content_injections`. */
  predicate ChatSignal(text: string) {
    || Occurs("<|im_start|>", text) || Occurs("<|im_end|>", text) || Occurs("<|system|>", text)
    || Occurs("<|assistant|>", text) || Occurs("<|user|>", text)
  }

  predicate LlamaSignal(text: string) {
    Occurs("[INST]", text) || Occurs("[/INST]", text) || Occurs("<<SYS>>", text) || Occurs("<</SYS>>", text)
  }

  lemma Tail(t: string, text: string)
    requires t != "" && Occurs(t, text)
    ensures Occurs(t[1..], text)
  {
    var i := OccursWhere(t, text);
    assert text[i + 1..i + 1 + |t[1..]|] == t[1..];
    OccursAt(t[1..], text, i + 1);
  }

  /** The scanner finds neither signal in a defanged text. */
  lemma ScanStaysSilent(text: string)
    ensures !ChatSignal(DefangDelimiters(text)) && !LlamaSignal(DefangDelimiters(text))
  {
    var r := DefangDelimiters(text);
    NoMarkerLeft(text);
    assert MARKERS[0] == "<|im_start|>" && MARKERS[1] == "<|im_end|>" && MARKERS[2] == "<|system|>";
    assert MARKERS[3] == "<|assistant|>" && MARKERS[4] == "<|user|>";
    assert MARKERS[5] == "[INST]" && MARKERS[6] == "[/INST]" && MARKERS[7] == "<SYS>>" && MARKERS[8] == "</SYS>>";
    assert "<<SYS>>"[1..] == "<SYS>>" && "<</SYS>>"[1..] == "</SYS>>";
    if Occurs("<<SYS>>", r) {
      Tail("<<SYS>>", r);
    }
    if Occurs("<</SYS>>", r) {
      Tail("<</SYS>>", r);
    }
  }

  // ---------------------------------------------------------------------------
  // What takes a marker's place
  // ---------------------------------------------------------------------------

  /** A replacement passes the later stages as it is. */
  lemma {:induction false} ReplacementStays(rules: seq<Rule>, k: nat, later: seq<Rule>)
    requires InShape(rules) && InShape(later) && Proper(rules) && Proper(later) && k < |rules|
    ensures Sub(later, rules[k].replacement) == rules[k].replacement
  {
    hide Sub, MarkerShape, ReplacementShape, Harmless;
    var r := rules[k].replacement;
    forall j | 0 <= j < |later| ensures !Occurs(later[j].token, r) {
      ShapesAreSafe(rules, later[j].token);
      if Occurs(later[j].token, r) {
        assert r + "" == r;
        SkipHarmless(r, later[j].token, "");
      }
    }
    NoTokenNoChange(later, r);
  }

  lemma {:induction false} LoneMarker(rules: seq<Rule>, k: nat)
    requires Proper(rules) && k < |rules|
    requires forall i | 0 <= i < k :: !(rules[i].token <= rules[k].token)
    ensures Sub(rules, rules[k].token) == rules[k].replacement
  {
    hide Sub;
    var m := rules[k].token;
    FirstOfAll(rules, m, k);
    assert "" + m + "" == m && m + "" == m;
    FirstMatchReplaced(rules, "", k, "");
    NothingToReplace(rules);
    assert "" + rules[k].replacement + "" == rules[k].replacement;
  }

  lemma NothingToReplace(rules: seq<Rule>)
    requires Proper(rules)
    ensures Sub(rules, "") == ""
  {
  }

  lemma {:induction false} FirstOfAll(rules: seq<Rule>, s: string, k: nat)
    requires k < |rules| && rules[k].token <= s && forall i | 0 <= i < k :: !(rules[i].token <= s)
    ensures AnyToken(rules, s) && Match(rules, s) == k
  {
    if k > 0 {
      FirstOfAll(rules[1..], s, k - 1);
    }
  }

  lemma FitsIn(t: string, s: string)
    requires t != "" && Occurs(t, s)
    ensures |t| <= |s| && t[0] in s
  {
    var i := OccursWhere(t, s);
    assert s[i..i + |t|][0] == s[i];
  }

  lemma Absent(rules: seq<Rule>, s: string)
    requires Proper(rules) && forall k | 0 <= k < |rules| :: |rules[k].token| > |s| || rules[k].token[0] !in s
    ensures Sub(rules, s) == s
  {
    hide Sub;
    forall k | 0 <= k < |rules| ensures !Occurs(rules[k].token, s) {
      if Occurs(rules[k].token, s) {
        FitsIn(rules[k].token, s);
      }
    }
    NoTokenNoChange(rules, s);
  }

  lemma ChatMarker(k: nat)
    requires k < 5
    ensures DefangDelimiters(CHATML[k].token) == CHATML[k].replacement
  {
    hide Sub;
    ChatMLShape();
    LlamaShape();
    assert CHATML[0].token[2] == 'i' && CHATML[1].token[2] == 'i' && CHATML[2].token[2] == 's';
    assert CHATML[3].token[2] == 'a' && CHATML[4].token[2] == 'u';
    assert CHATML[0].token[5] == 's' && CHATML[1].token[5] == 'e';
    LoneMarker(CHATML, k);
    ReplacementStays(CHATML, k, INST);
    ReplacementStays(CHATML, k, SYS);
  }

  lemma InstMarker(k: nat)
    requires k < 2
    ensures DefangDelimiters(INST[k].token) == "[defanged_inst]"
  {
    hide Sub, CHATML;
    LlamaShape();
    ChatsAreLong();
    assert INST[0].token[1] == 'I' && INST[1].token[1] == '/';
    Absent(CHATML, INST[k].token);
    LoneMarker(INST, k);
    ReplacementStays(INST, k, SYS);
  }

  lemma SysMarker(k: nat)
    requires k < 2
    ensures DefangDelimiters(SYS[k].token) == "<defanged_sys>"
  {
    hide Sub, CHATML;
    ChatsAreLong();
    assert SYS[0].token[1] == 'S' && SYS[1].token[1] == '/';
    Absent(CHATML, SYS[k].token);
    assert INST[0].token[0] == '[' && INST[1].token[0] == '[';
    Absent(INST, SYS[k].token);
    LoneMarker(SYS, k);
  }

  lemma ChatsAreLong()
    ensures Proper(CHATML) && forall k | 0 <= k < |CHATML| :: |CHATML[k].token| >= 8
  {
  }

  /** Each marker by itself becomes its own harmless text. */
  lemma WhatTakesItsPlace()
    ensures DefangDelimiters("<|im_start|>") == "<[defanged:im_start]>"
    ensures DefangDelimiters("<|im_end|>") == "<[defanged:im_end]>"
    ensures DefangDelimiters("<|system|>") == "<[defanged:system]>"
    ensures DefangDelimiters("<|assistant|>") == "<[defanged:assistant]>"
    ensures DefangDelimiters("<|user|>") == "<[defanged:user]>"
    ensures DefangDelimiters("[INST]") == DefangDelimiters("[/INST]") == "[defanged_inst]"
    ensures DefangDelimiters("<SYS>>") == DefangDelimiters("</SYS>>") == "<defanged_sys>"
  {
    hide DefangDelimiters;
    ChatMarker(0);
    ChatMarker(1);
    ChatMarker(2);
    ChatMarker(3);
    ChatMarker(4);
    InstMarker(0);
    InstMarker(1);
    SysMarker(0);
    SysMarker(1);
    ImNames();
    RoleNames();
  }

  lemma ImNames()
    ensures CHATML[0] == Rule("<|im_start|>", "<[defanged:im_start]>")
    ensures CHATML[1] == Rule("<|im_end|>", "<[defanged:im_end]>")
  {
  }

  lemma RoleNames()
    ensures CHATML[2] == Rule("<|system|>", "<[defanged:system]>")
    ensures CHATML[3] == Rule("<|assistant|>", "<[defanged:assistant]>")
    ensures CHATML[4] == Rule("<|user|>", "<[defanged:user]>")
  {
  }
}
