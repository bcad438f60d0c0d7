/**
 * HTML escaping (`escapeHtml`), the decoding a browser applies to escaped text,
 * and the popup summary (`uiPopup`) whose text is stored in each record.
 */
module Html {
  import opened Text
  import Seqs

  /** The five characters `escapeHtml` replaces. */
  predicate IsSpecial(c: char)
  {
    c == '&' || c == '<' || c == '>' || c == '"' || c == '\''
  }

  predicate HasNoSpecial(s: string)
  {
    forall i :: 0 <= i < |s| ==> !IsSpecial(s[i])
  }

  /** The replacement of one character: never a tag or quote character, and only a special character changes. */
  function Entity(c: char): (r: string)
    ensures '<' !in r && '>' !in r && '"' !in r && '\'' !in r
    ensures !IsSpecial(c) ==> r == [c]
    ensures |r| >= 1
  {
    if c == '&' then "&amp;"
    else if c == '<' then "&lt;"
    else if c == '>' then "&gt;"
    else if c == '"' then "&quot;"
    else if c == '\'' then "&#39;"
    else [c]
  }

  /**
   * `escapeHtml(s)`: every special character replaced by its entity. The result
   * holds no `<`, `>`, `"` or `'`, so it cannot open a tag or leave an attribute
   * value, and a string without special characters comes back unchanged.
   */
  function EscapeHtml(s: string): (r: string)
    ensures '<' !in r && '>' !in r && '"' !in r && '\'' !in r
    ensures HasNoSpecial(s) ==> r == s
    ensures |r| >= |s|
  {
    if s == [] then []
    else
      var rest := EscapeHtml(s[1..]);
      assert HasNoSpecial(s) ==> HasNoSpecial(s[1..]) by {
        if HasNoSpecial(s) {
          forall i | 0 <= i < |s| - 1 ensures !IsSpecial(s[1..][i]) {
            assert s[1..][i] == s[i + 1];
          }
        }
      }
      assert HasNoSpecial(s) ==> [s[0]] + s[1..] == s;
      var head := Entity(s[0]);
      assert forall x :: x in head + rest ==> x in head || x in rest;
      head + rest
  }

  /** Decoding of the five entities, as a browser does when it renders escaped text. */
  function Unescape(s: string): string
    decreases |s|
  {
    if s == [] then []
    else if StartsWith(s, "&amp;") then "&" + Unescape(s[5..])
    else if StartsWith(s, "&lt;") then "<" + Unescape(s[4..])
    else if StartsWith(s, "&gt;") then ">" + Unescape(s[4..])
    else if StartsWith(s, "&quot;") then "\"" + Unescape(s[6..])
    else if StartsWith(s, "&#39;") then "'" + Unescape(s[5..])
    else [s[0]] + Unescape(s[1..])
  }

  /** `s` begins with `prefix`. */
  predicate StartsWith(s: string, prefix: string)
  {
    |s| >= |prefix| && s[..|prefix|] == prefix
  }

  /** The entities differ at index 1, so a string starts with no entity whose second character it lacks. */
  lemma SecondCharRulesOut(s: string, prefix: string)
    requires |s| >= 2 && |prefix| >= 2 && s[1] != prefix[1]
    ensures !StartsWith(s, prefix)
  {
    assert |s| >= |prefix| ==> s[..|prefix|][1] == s[1];
  }

  /** Decoding undoes the replacement of a single character. */
  lemma UnescapeEntity(c: char, rest: string)
    ensures Unescape(Entity(c) + rest) == [c] + Unescape(rest)
  {
    var e := Entity(c) + rest;
    if c == '&' {
      assert e[..5] == "&amp;" && e[5..] == rest;
    } else if c == '<' {
      SecondCharRulesOut(e, "&amp;");
      assert e[..4] == "&lt;" && e[4..] == rest;
    } else if c == '>' {
      SecondCharRulesOut(e, "&amp;");
      SecondCharRulesOut(e, "&lt;");
      assert e[..4] == "&gt;" && e[4..] == rest;
    } else if c == '"' {
      SecondCharRulesOut(e, "&amp;");
      SecondCharRulesOut(e, "&lt;");
      SecondCharRulesOut(e, "&gt;");
      assert e[..6] == "&quot;" && e[6..] == rest;
    } else if c == '\'' {
      SecondCharRulesOut(e, "&amp;");
      SecondCharRulesOut(e, "&lt;");
      SecondCharRulesOut(e, "&gt;");
      SecondCharRulesOut(e, "&quot;");
      assert e[..5] == "&#39;" && e[5..] == rest;
    } else {
      UnescapePlain(c, rest);
    }
  }

  /** A character that is not `&` starts no entity and is decoded as itself. */
  lemma UnescapePlain(c: char, rest: string)
    requires c != '&'
    ensures Unescape([c] + rest) == [c] + Unescape(rest)
  {
    var e := [c] + rest;
    assert e[0] == c && e[1..] == rest;
    assert !StartsWith(e, "&amp;") && !StartsWith(e, "&lt;") && !StartsWith(e, "&gt;")
        && !StartsWith(e, "&quot;") && !StartsWith(e, "&#39;") by {
      forall prefix: string | |prefix| > 0 && prefix[0] == '&' ensures !StartsWith(e, prefix) {
        assert |e| >= |prefix| ==> e[..|prefix|][0] == c;
      }
    }
  }

  /** Escaping loses nothing: the browser shows exactly the original text. */
  lemma {:induction false} UnescapeEscapeHtml(s: string)
    ensures Unescape(EscapeHtml(s)) == s
  {
    if s != [] {
      UnescapeEntity(s[0], EscapeHtml(s[1..]));
      UnescapeEscapeHtml(s[1..]);
    }
  }

  /** A property of the bag, or the empty string when it is absent (`p.name || ''`). */
  function PropOrEmpty(p: map<string, string>, key: string): string
  {
    if key in p then p[key] else ""
  }

  const NameOpen := "<div><b>"
  const NameClose := "</b></div>"
  const DescriptionOpen := "<div style=\"margin-top:4px;\">"
  const IdOpen := "<div style=\"font-size:12px;color:#666;margin-top:6px;\">"
  const DivClose := "</div>"

  /**
   * `uiPopup(layer)` with no prefix: the escaped name in bold, the escaped
   * description when it is non-empty, and the first eight characters of the id.
   */
  function PopupHtml(p: map<string, string>, id: string): (r: string)
    ensures StartsWith(r, NameOpen + EscapeHtml(PropOrEmpty(p, "name")) + NameClose)
    ensures var tail := IdOpen + Seqs.Take(id, 8) + DivClose;
      |r| >= |tail| && r[|r| - |tail|..] == tail
  {
    var name := NameOpen + EscapeHtml(PropOrEmpty(p, "name")) + NameClose;
    var description :=
      if PropOrEmpty(p, "description") != ""
      then DescriptionOpen + EscapeHtml(p["description"]) + DivClose
      else "";
    var short := IdOpen + Seqs.Take(id, 8) + DivClose;
    Seqs.AppendSplit(name, description);
    Seqs.AppendSplit(name + description, short);
    Seqs.PrefixOfAppend(name + description, short, |name|);
    name + description + short
  }

  /** The popup depends only on `name` and `description`: setting any other key leaves it as it was. */
  lemma PopupIgnoresOtherKeys(p: map<string, string>, key: string, v: string, id: string)
    requires key != "name" && key != "description"
    ensures PopupHtml(p[key := v], id) == PopupHtml(p, id)
  {
    assert PropOrEmpty(p[key := v], "name") == PropOrEmpty(p, "name");
    assert PropOrEmpty(p[key := v], "description") == PropOrEmpty(p, "description");
  }

  /** The popup shows the escaped name, the escaped description when there is one, and the short id. */
  lemma PopupContents(p: map<string, string>, id: string)
    ensures Contains(PopupHtml(p, id), EscapeHtml(PropOrEmpty(p, "name")))
    ensures PropOrEmpty(p, "description") != "" ==> Contains(PopupHtml(p, id), EscapeHtml(p["description"]))
    ensures Contains(PopupHtml(p, id), Seqs.Take(id, 8))
  {
    var name := EscapeHtml(PropOrEmpty(p, "name"));
    var description :=
      if PropOrEmpty(p, "description") != ""
      then DescriptionOpen + EscapeHtml(p["description"]) + DivClose
      else "";
    var short := Seqs.Take(id, 8);
    // the popup as its three blocks: name, description, short id
    var head := NameOpen + name + NameClose;
    var tail := IdOpen + short + DivClose;
    assert PopupHtml(p, id) == head + description + tail;
    ContainsSelf(name);
    ContainsAppend(NameOpen, name, name);
    ContainsAppend(NameOpen + name, NameClose, name);
    ContainsAppend(head, description, name);
    ContainsAppend(head + description, tail, name);
    ContainsSelf(short);
    ContainsAppend(IdOpen, short, short);
    ContainsAppend(IdOpen + short, DivClose, short);
    ContainsAppend(head + description, tail, short);
    if PropOrEmpty(p, "description") != "" {
      var d := EscapeHtml(p["description"]);
      ContainsSelf(d);
      ContainsAppend(DescriptionOpen, d, d);
      ContainsAppend(DescriptionOpen + d, DivClose, d);
      ContainsAppend(head, description, d);
      ContainsAppend(head + description, tail, d);
    }
  }

  /** A plain name (no special characters) appears verbatim in the popup. */
  lemma PopupShowsPlainName(p: map<string, string>, id: string)
    requires "name" in p && HasNoSpecial(p["name"])
    ensures Contains(PopupHtml(p, id), p["name"])
  {
    PopupContents(p, id);
    assert EscapeHtml(p["name"]) == p["name"];
  }
}
