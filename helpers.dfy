/** The helpers shared verbatim by js/script.js and app.js: HTML escaping,
    the text of a result notification, and the dirty-row counter label. */
module Helpers {
  import opened Js

  /** `s.replaceAll(c, rep)` for a one-character pattern. */
  function ReplaceAll(s: string, c: char, rep: string): string
    decreases |s|
  {
    if s == [] then []
    else (if s[0] == c then rep else [s[0]]) + ReplaceAll(s[1..], c, rep)
  }

  /** The five `replaceAll` calls of `esc`, in their order: `&` first. */
  function EscapeChain(t: string): string
  {
    Step(4, Step(3, Step(2, Step(1, Step(0, t)))))
  }

  /** The entity that stands for one character (reference definition of escaping). */
  function EscapeChar(c: char): string
  {
    match c
    case '&' => "&amp;"
    case '<' => "&lt;"
    case '>' => "&gt;"
    case '"' => "&quot;"
    case '\'' => "&#039;"
    case _ => [c]
  }

  /** Escaping character by character. */
  function EscapeEach(s: string): string
    decreases |s|
  {
    if s == [] then [] else EscapeChar(s[0]) + EscapeEach(s[1..])
  }

  predicate StartsWithEntity(t: string)
  {
    StartsWith(t, "&amp;") || StartsWith(t, "&lt;") || StartsWith(t, "&gt;")
    || StartsWith(t, "&quot;") || StartsWith(t, "&#039;")
  }

  predicate IsMarkup(c: char)
  {
    c == '<' || c == '>' || c == '"' || c == '\''
  }

  /** Safe to place in HTML text or a quoted attribute: no markup character,
      and every ampersand begins one of the five entities. */
  predicate Escaped(r: string)
  {
    (forall i :: 0 <= i < |r| ==> !IsMarkup(r[i]))
    && (forall i :: 0 <= i < |r| && r[i] == '&' ==> StartsWithEntity(r[i..]))
  }

  /** How an HTML parser reads the five entities back (inverse of escaping). */
  function Unescape(r: string): string
    decreases |r|
  {
    if r == [] then []
    else if StartsWith(r, "&amp;") then "&" + Unescape(r[5..])
    else if StartsWith(r, "&lt;") then "<" + Unescape(r[4..])
    else if StartsWith(r, "&gt;") then ">" + Unescape(r[4..])
    else if StartsWith(r, "&quot;") then "\"" + Unescape(r[6..])
    else if StartsWith(r, "&#039;") then "'" + Unescape(r[6..])
    else [r[0]] + Unescape(r[1..])
  }

  lemma {:induction false} ReplaceAllAppend(a: string, b: string, c: char, rep: string)
    ensures ReplaceAll(a + b, c, rep) == ReplaceAll(a, c, rep) + ReplaceAll(b, c, rep)
    decreases |a|
  {
    if a != [] {
      assert (a + b)[0] == a[0];
      assert (a + b)[1..] == a[1..] + b;
      ReplaceAllAppend(a[1..], b, c, rep);
    } else {
      assert a + b == b;
    }
  }

  lemma ReplaceAllSingle(c: char, rep: string)
    ensures ReplaceAll([c], c, rep) == rep
  {
    assert [c][1..] == [];
    assert rep + [] == rep;
  }

  lemma {:induction false} ReplaceAllAbsent(s: string, c: char, rep: string)
    requires forall i :: 0 <= i < |s| ==> s[i] != c
    ensures ReplaceAll(s, c, rep) == s
    decreases |s|
  {
    if s != [] {
      ReplaceAllAbsent(s[1..], c, rep);
    }
  }

  /** The replacement steps of `esc` one at a time. */
  function Step(k: nat, t: string): string
    requires k < 5
  {
    match k
    case 0 => ReplaceAll(t, '&', "&amp;")
    case 1 => ReplaceAll(t, '<', "&lt;")
    case 2 => ReplaceAll(t, '>', "&gt;")
    case 3 => ReplaceAll(t, '"', "&quot;")
    case _ => ReplaceAll(t, '\'', "&#039;")
  }

  const Markup: seq<char> := "&<>\"'"

  /** Step `k` replaces `Markup[k]` by `EscapeChar(Markup[k])` and leaves other characters alone. */
  lemma StepChar(k: nat, c: char)
    requires k < 5
    ensures Step(k, [c]) == if c == Markup[k] then EscapeChar(c) else [c]
  {
    if c == Markup[k] {
      ReplaceAllSingle(c, EscapeChar(c));
    } else {
      ReplaceAllAbsent([c], Markup[k], EscapeChar(Markup[k]));
    }
  }

  /** Step `k` leaves an entity produced by an earlier step alone. */
  lemma StepEntity(k: nat, c: char)
    requires k < 5 && c in Markup
    requires forall i :: 0 <= i < |EscapeChar(c)| ==> EscapeChar(c)[i] != Markup[k]
    ensures Step(k, EscapeChar(c)) == EscapeChar(c)
  {
    ReplaceAllAbsent(EscapeChar(c), Markup[k], EscapeChar(Markup[k]));
  }

  lemma StepAppend(k: nat, a: string, b: string)
    requires k < 5
    ensures Step(k, a + b) == Step(k, a) + Step(k, b)
  {
    ReplaceAllAppend(a, b, Markup[k], EscapeChar(Markup[k]));
  }

  lemma EscapeChainAppend(a: string, b: string)
    ensures EscapeChain(a + b) == EscapeChain(a) + EscapeChain(b)
  {
    StepAppend(0, a, b);
    var a1, b1 := Step(0, a), Step(0, b);
    StepAppend(1, a1, b1);
    var a2, b2 := Step(1, a1), Step(1, b1);
    StepAppend(2, a2, b2);
    var a3, b3 := Step(2, a2), Step(2, b2);
    StepAppend(3, a3, b3);
    StepAppend(4, Step(3, a3), Step(3, b3));
  }

  /** On one markup character: the step for it produces its entity, the later steps leave it alone. */
  lemma EscapeChainAmp(c: char)
    requires c == Markup[0]
    ensures EscapeChain([c]) == EscapeChar(c)
  {
    var e := EscapeChar(c);
    StepChar(0, c);
    assert Step(0, [c]) == e;
    StepEntity(1, c);
    assert Step(1, e) == e;
    StepEntity(2, c);
    assert Step(2, e) == e;
    StepEntity(3, c);
    assert Step(3, e) == e;
    StepEntity(4, c);
    assert Step(4, e) == e;
  }

  lemma EscapeChainLt(c: char)
    requires c == Markup[1]
    ensures EscapeChain([c]) == EscapeChar(c)
  {
    var e := EscapeChar(c);
    StepChar(0, c);
    assert Step(0, [c]) == [c];
    StepChar(1, c);
    assert Step(1, [c]) == e;
    StepEntity(2, c);
    assert Step(2, e) == e;
    StepEntity(3, c);
    assert Step(3, e) == e;
    StepEntity(4, c);
    assert Step(4, e) == e;
  }

  lemma EscapeChainGt(c: char)
    requires c == Markup[2]
    ensures EscapeChain([c]) == EscapeChar(c)
  {
    var e := EscapeChar(c);
    StepChar(0, c);
    assert Step(0, [c]) == [c];
    StepChar(1, c);
    assert Step(1, [c]) == [c];
    StepChar(2, c);
    assert Step(2, [c]) == e;
    StepEntity(3, c);
    assert Step(3, e) == e;
    StepEntity(4, c);
    assert Step(4, e) == e;
  }

  lemma EscapeChainQuot(c: char)
    requires c == Markup[3]
    ensures EscapeChain([c]) == EscapeChar(c)
  {
    var e := EscapeChar(c);
    StepChar(0, c);
    assert Step(0, [c]) == [c];
    StepChar(1, c);
    assert Step(1, [c]) == [c];
    StepChar(2, c);
    assert Step(2, [c]) == [c];
    StepChar(3, c);
    assert Step(3, [c]) == e;
    StepEntity(4, c);
    assert Step(4, e) == e;
  }

  lemma EscapeChainApos(c: char)
    requires c == Markup[4]
    ensures EscapeChain([c]) == EscapeChar(c)
  {
    var e := EscapeChar(c);
    StepChar(0, c);
    assert Step(0, [c]) == [c];
    StepChar(1, c);
    assert Step(1, [c]) == [c];
    StepChar(2, c);
    assert Step(2, [c]) == [c];
    StepChar(3, c);
    assert Step(3, [c]) == [c];
    StepChar(4, c);
    assert Step(4, [c]) == e;
  }

  lemma EscapeChainOther(c: char)
    requires c !in Markup
    ensures EscapeChain([c]) == [c]
  {
    StepChar(0, c); StepChar(1, c); StepChar(2, c); StepChar(3, c); StepChar(4, c);
  }

  /** A later replacement never touches the entity an earlier one produced. */
  lemma EscapeChainChar(c: char)
    ensures EscapeChain([c]) == EscapeChar(c)
  {
    if c == '&' { EscapeChainAmp(c); }
    else if c == '<' { EscapeChainLt(c); }
    else if c == '>' { EscapeChainGt(c); }
    else if c == '"' { EscapeChainQuot(c); }
    else if c == '\'' { EscapeChainApos(c); }
    else { EscapeChainOther(c); }
  }

  /** The chain of `replaceAll` calls escapes each character independently. */
  lemma {:induction false} EscapeChainIsPerChar(s: string)
    ensures EscapeChain(s) == EscapeEach(s)
    decreases |s|
  {
    if s != [] {
      assert s == [s[0]] + s[1..];
      EscapeChainAppend([s[0]], s[1..]);
      EscapeChainChar(s[0]);
      EscapeChainIsPerChar(s[1..]);
    }
  }

  /** The facts about each entity that escaping relies on. */
  lemma EntityAmpFacts()
    ensures var e := "&amp;"; Escaped(e) && forall i :: 0 < i < |e| ==> e[i] != '&'
  {
    var e := "&amp;";
    assert e[0..] == e && e[..5] == e;
  }

  lemma EntityLtFacts()
    ensures var e := "&lt;"; Escaped(e) && forall i :: 0 < i < |e| ==> e[i] != '&'
  {
    var e := "&lt;";
    assert e[0..] == e && e[..4] == e;
  }

  lemma EntityGtFacts()
    ensures var e := "&gt;"; Escaped(e) && forall i :: 0 < i < |e| ==> e[i] != '&'
  {
    var e := "&gt;";
    assert e[0..] == e && e[..4] == e;
  }

  lemma EntityQuotFacts()
    ensures var e := "&quot;"; Escaped(e) && forall i :: 0 < i < |e| ==> e[i] != '&'
  {
    var e := "&quot;";
    assert e[0..] == e && e[..6] == e;
  }

  lemma EntityAposFacts()
    ensures var e := "&#039;"; Escaped(e) && forall i :: 0 < i < |e| ==> e[i] != '&'
  {
    var e := "&#039;";
    assert e[0..] == e && e[..6] == e;
  }

  lemma EscapeCharEscaped(c: char)
    ensures Escaped(EscapeChar(c))
    ensures forall i :: 0 < i < |EscapeChar(c)| ==> EscapeChar(c)[i] != '&'
    ensures |EscapeChar(c)| > 0
  {
    if c == '&' { EntityAmpFacts(); }
    else if c == '<' { EntityLtFacts(); }
    else if c == '>' { EntityGtFacts(); }
    else if c == '"' { EntityQuotFacts(); }
    else if c == '\'' { EntityAposFacts(); }
    else {
      assert EscapeChar(c) == [c];
    }
  }

  lemma {:induction false} EscapeEachEscaped(s: string)
    ensures Escaped(EscapeEach(s))
    decreases |s|
  {
    if s != [] {
      var e, rest := EscapeChar(s[0]), EscapeEach(s[1..]);
      var r := e + rest;
      EscapeCharEscaped(s[0]);
      EscapeEachEscaped(s[1..]);
      forall i | 0 <= i < |r|
        ensures !IsMarkup(r[i])
      {
        if i >= |e| { assert r[i] == rest[i - |e|]; }
      }
      forall i | 0 <= i < |r| && r[i] == '&'
        ensures StartsWithEntity(r[i..])
      {
        if i >= |e| {
          assert r[i..] == rest[i - |e|..];
          assert rest[i - |e|] == '&';
        } else {
          assert i == 0;
          assert StartsWithEntity(e);
          var p := if s[0] == '&' then "&amp;" else if s[0] == '<' then "&lt;"
                   else if s[0] == '>' then "&gt;" else if s[0] == '"' then "&quot;" else "&#039;";
          assert e == p;
          assert r[..|p|] == p;
        }
      }
    }
  }

  /** Reading back each entity followed by more text. */
  lemma UnescapeAmp(rest: string)
    ensures Unescape("&amp;" + rest) == ['&'] + Unescape(rest)
  {
    var r := "&amp;" + rest;
    assert r[..5] == "&amp;" && r[5..] == rest;
    assert r[1] == 'a';
  }

  lemma UnescapeLt(rest: string)
    ensures Unescape("&lt;" + rest) == ['<'] + Unescape(rest)
  {
    var r := "&lt;" + rest;
    assert r[..4] == "&lt;" && r[4..] == rest;
    assert r[1] == 'l';
  }

  lemma UnescapeGt(rest: string)
    ensures Unescape("&gt;" + rest) == ['>'] + Unescape(rest)
  {
    var r := "&gt;" + rest;
    assert r[..4] == "&gt;" && r[4..] == rest;
    assert r[1] == 'g';
  }

  lemma UnescapeQuot(rest: string)
    ensures Unescape("&quot;" + rest) == ['"'] + Unescape(rest)
  {
    var r := "&quot;" + rest;
    assert r[..6] == "&quot;" && r[6..] == rest;
    assert r[1] == 'q';
  }

  lemma UnescapeApos(rest: string)
    ensures Unescape("&#039;" + rest) == ['\''] + Unescape(rest)
  {
    var r := "&#039;" + rest;
    assert r[..6] == "&#039;" && r[6..] == rest;
    assert r[1] == '#';
  }

  lemma UnescapeStep(c: char, rest: string)
    ensures Unescape(EscapeChar(c) + rest) == [c] + Unescape(rest)
  {
    if c == '&' {
      UnescapeAmp(rest);
    } else if c == '<' {
      UnescapeLt(rest);
    } else if c == '>' {
      UnescapeGt(rest);
    } else if c == '"' {
      UnescapeQuot(rest);
    } else if c == '\'' {
      UnescapeApos(rest);
    } else {
      var r := [c] + rest;
      assert r[0] == c && r[1..] == rest;
    }
  }

  lemma {:induction false} UnescapeEscapeEach(s: string)
    ensures Unescape(EscapeEach(s)) == s
    decreases |s|
  {
    if s != [] {
      UnescapeStep(s[0], EscapeEach(s[1..]));
      UnescapeEscapeEach(s[1..]);
      assert s == [s[0]] + s[1..];
    }
  }

  /** `esc(s)`: `String(s ?? "")` with the five HTML-significant characters
      replaced by entities, ampersands first. The result is safe to embed,
      escapes each character on its own, and reads back as the original text. */
  function Esc(s: Option<string>): (r: string)
    ensures s.None? ==> r == ""
    ensures r == EscapeEach(if s.Some? then s.value else "")
    ensures Escaped(r)
    ensures Unescape(r) == (if s.Some? then s.value else "")
  {
    var t := if s.Some? then s.value else "";
    EscapeChainIsPerChar(t);
    EscapeEachEscaped(t);
    UnescapeEscapeEach(t);
    EscapeChain(t)
  }

  /** Escaping is injective: distinct texts never look alike once escaped. */
  lemma EscInjective(a: string, b: string)
    requires Esc(Some(a)) == Esc(Some(b))
    ensures a == b
  {
  }

  /** What the toast and the popup of one `notifyResult` call show. */
  datatype Notice = Notice(
    ok: bool,
    toastKind: string, toastTitle: string, toastMessage: string, toastMs: nat,
    popupTitle: string, popupMessage: string)

  const GenericReason := "원인을 확인해주세요."

  /** `detail || "원인을 확인해주세요."`: the reason named on failure. */
  function FailureReason(detail: Option<string>): (r: string)
    ensures r != ""
    ensures Truthy(detail) ==> r == detail.value
    ensures !Truthy(detail) ==> r == GenericReason
  {
    Or(detail, Some(GenericReason)).value
  }

  /** `notifyResult(ok, context, detail)`. */
  function NotifyResult(ok: bool, context: string, detail: Option<string>): (n: Notice)
    ensures n.ok == ok
    ensures ok ==> n.toastKind == "success" && n.toastTitle == "성공" && n.popupTitle == "성공"
                   && n.toastMs == 2500 && n.toastMessage == context + " 완료"
    ensures ok && !Truthy(detail) ==> n.popupMessage == n.toastMessage
    ensures ok && Truthy(detail) ==> n.popupMessage == n.toastMessage + "\n\n" + detail.value
    ensures !ok ==> n.toastKind == "error" && n.toastTitle == "실패" && n.popupTitle == "실패"
                    && n.toastMs == 4500
                    && n.toastMessage == context + " 실패: " + FailureReason(detail)
                    && n.popupMessage == context + " 실패\n\n" + FailureReason(detail)
  {
    if ok then
      Notice(true, "success", "성공", context + " 완료", 2500,
             "성공", context + " 완료" + (if Truthy(detail) then "\n\n" + detail.value else ""))
    else
      var msg := FailureReason(detail);
      Notice(false, "error", "실패", context + " 실패: " + msg, 4500,
             "실패", context + " 실패\n\n" + msg)
  }

  /** Success and failure are told apart by the message itself, and a failure
      always ends in a non-empty reason. */
  lemma NoticeMessagesDiffer(context: string, d1: Option<string>, d2: Option<string>)
    ensures NotifyResult(true, context, d1).toastMessage != NotifyResult(false, context, d2).toastMessage
    ensures var m := NotifyResult(false, context, d2).popupMessage;
            |m| > |context| + 5 && m[|m| - |FailureReason(d2)|..] == FailureReason(d2)
  {
    var s := NotifyResult(true, context, d1).toastMessage;
    var f := NotifyResult(false, context, d2).toastMessage;
    assert s[|context| + 1] == '완';
    assert f[|context| + 1] == '실';
  }

  const DirtyLabelPrefix := "● 변경된 행: "

  /** The dirty-row counter text for `size` dirty rows: blank when none. */
  function DirtyLabel(size: nat): (r: string)
    ensures r == "" <==> size == 0
    ensures size > 0 ==> r == DirtyLabelPrefix + NatToString(size) + "개"
  {
    if size == 0 then "" else DirtyLabelPrefix + NatToString(size) + "개"
  }

  /** The label determines the count. */
  lemma DirtyLabelInjective(a: nat, b: nat)
    requires DirtyLabel(a) == DirtyLabel(b)
    ensures a == b
  {
    if a > 0 && b > 0 {
      var la, lb := DirtyLabel(a), DirtyLabel(b);
      var sa, sb := NatToString(a), NatToString(b);
      var k := |DirtyLabelPrefix|;
      assert |sa| == |sb|;
      assert sa == la[k..k + |sa|];
      assert sb == lb[k..k + |sb|];
      NatToStringInjective(a, b);
    }
  }
}
