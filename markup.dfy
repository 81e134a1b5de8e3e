/** The two text helpers of the views: escapeHtml (js/app.js:616-620) and the
    marker colour rule of createIconForItem (js/app.js:331-336). */
module Markup {
  import opened JsString
  import opened JsonValue
  import opened Candidates

  // ------------------------------------------------------------ escapeHtml

  /** The characters escapeHtml replaces. */
  predicate IsSpecial(c: char)
  {
    c == '&' || c == '<' || c == '>' || c == '"' || c == '\'' || c == '`'
  }

  function EscapeChar(c: char): (r: string)
    ensures r != []
    ensures !IsSpecial(c) ==> r == [c]
  {
    match c
    case '&' => "&amp;"
    case '<' => "&lt;"
    case '>' => "&gt;"
    case '"' => "&quot;"
    case '\'' => "&#39;"
    case '`' => "&#96;"
    case _ => [c]
  }

  /** The replacement of every special character by its entity. */
  function Escape(s: string): (r: string)
    ensures forall i :: 0 <= i < |r| ==> r[i] != '<' && r[i] != '>' && r[i] != '"' && r[i] != '\'' && r[i] != '`'
    ensures (forall i :: 0 <= i < |s| ==> !IsSpecial(s[i])) ==> r == s
  {
    if s == [] then []
    else EscapeChar(s[0]) + Escape(s[1..])
  }

  /** `escapeHtml(v)`: the text of a truthy value, "" for a falsy one, escaped. */
  function EscapeHtml(h: Host, v: Json): string
  {
    Escape(if Truthy(v) then ToJsString(h, v) else "")
  }

  /** Decoding the six entities, the inverse escapeHtml is designed against. */
  function Unescape(s: string): string
  {
    if s == [] then []
    else if "&amp;" <= s then "&" + Unescape(s[5..])
    else if "&lt;" <= s then "<" + Unescape(s[4..])
    else if "&gt;" <= s then ">" + Unescape(s[4..])
    else if "&quot;" <= s then "\"" + Unescape(s[6..])
    else if "&#39;" <= s then "'" + Unescape(s[5..])
    else if "&#96;" <= s then "`" + Unescape(s[5..])
    else [s[0]] + Unescape(s[1..])
  }

  /** A character that needs no entity is decoded as itself. */
  lemma UnescapePlain(c: char, rest: string)
    requires !IsSpecial(c)
    ensures Unescape([c] + rest) == [c] + Unescape(rest)
  {
    var s := [c] + rest;
    assert s[0] == c && s[1..] == rest;
  }

  /** The entity `e` at the front of `s`, tried after the ones `e` differs
      from, is decoded as `c`. */
  lemma UnescapeEntity(c: char, rest: string)
    requires IsSpecial(c)
    ensures Unescape(EscapeChar(c) + rest) == [c] + Unescape(rest)
  {
    var e := EscapeChar(c);
    var s := e + rest;
    assert s[..|e|] == e && s[|e|..] == rest;
    assert s[0] == '&' && s[1] == e[1] && s[2] == e[2];
    assert c == '&' ==> "&amp;" <= s;
    assert c != '&' ==> !("&amp;" <= s);
    assert c == '<' ==> "&lt;" <= s;
    assert c != '<' ==> !("&lt;" <= s);
    assert c == '>' ==> "&gt;" <= s;
    assert c != '>' ==> !("&gt;" <= s);
    assert c == '"' ==> "&quot;" <= s;
    assert c != '"' ==> !("&quot;" <= s);
    assert c == '\'' ==> "&#39;" <= s;
    assert c != '\'' ==> !("&#39;" <= s);
    assert c == '`' ==> "&#96;" <= s;
  }

  lemma UnescapeChar(c: char, rest: string)
    ensures Unescape(EscapeChar(c) + rest) == [c] + Unescape(rest)
  {
    if IsSpecial(c) {
      UnescapeEntity(c, rest);
    } else {
      UnescapePlain(c, rest);
    }
  }

  /** Escaping loses nothing: decoding the entities gives the text back. */
  lemma {:induction false} UnescapeEscape(s: string)
    ensures Unescape(Escape(s)) == s
  {
    if s != [] {
      UnescapeEscape(s[1..]);
      UnescapeChar(s[0], Escape(s[1..]));
    }
  }

  /** Falsy values print as nothing. */
  lemma EscapeFalsy(h: Host, v: Json)
    requires !Truthy(v)
    ensures EscapeHtml(h, v) == ""
  {
  }

  // ------------------------------------------------------------ icon colour

  const DefaultColor := "#6fb3ff"
  const WeaponColor := "#ff8a8a"
  const BlueprintColor := "#ffd26b"
  const QuestColor := "#9b6bff"
  const BotColor := "#7ee7b7"

  /** The colour a lower-cased type text earns, by priority: bot, quest,
      blueprint/recipe/project, weapon, and the default. */
  function ColorFor(t: string): string
  {
    if Contains(t, "bot") then BotColor
    else if Contains(t, "quest") then QuestColor
    else if Contains(t, "blueprint") || Contains(t, "recipe") || Contains(t, "project") then BlueprintColor
    else if Contains(t, "weapon") then WeaponColor
    else DefaultColor
  }

  /** The lower-cased text of `type || category || ''`. */
  function TypeText(h: Host, item: Json): string
  {
    LowerText(h, TruthyOr(item, ["type", "category"], JStr("")))
  }

  /** createIconForItem's colour: each later test that matches overrides the
      colour an earlier one chose. */
  method IconColor(h: Host, item: Json) returns (color: string)
    ensures color == ColorFor(TypeText(h, item))
  {
    var t := LowerText(h, TruthyOr(item, ["type", "category"], JStr("")));
    color := DefaultColor;
    if Contains(t, "weapon") {
      color := WeaponColor;
    }
    if Contains(t, "blueprint") || Contains(t, "recipe") || Contains(t, "project") {
      color := BlueprintColor;
    }
    if Contains(t, "quest") {
      color := QuestColor;
    }
    if Contains(t, "bot") {
      color := BotColor;
    }
  }

  /** A type naming both a weapon and a quest is coloured as a quest. */
  lemma QuestBeatsWeapon(t: string)
    requires Contains(t, "quest") && !Contains(t, "bot")
    ensures ColorFor(t) == QuestColor
  {
  }
}
