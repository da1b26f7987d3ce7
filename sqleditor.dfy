/** The SQL editor of components/query/SqlEditor.tsx: completion of the word before the
    caret from a fixed keyword and schema list, the popup's position, accepting a
    suggestion, the Tab/Enter/Escape keys and the HTML escaping of the highlighted
    backdrop. The caret and selection are integers handed in, as the text area reports
    them. */
module SqlEditor {
  import opened Common

  const Keywords: seq<string> := [
    "SELECT", "FROM", "WHERE", "GROUP BY", "ORDER BY", "HAVING", "LIMIT", "OFFSET",
    "JOIN", "LEFT JOIN", "RIGHT JOIN", "INNER JOIN", "OUTER JOIN",
    "AND", "OR", "NOT", "IN", "BETWEEN", "LIKE", "IS", "NULL",
    "COUNT", "SUM", "AVG", "MIN", "MAX", "AS", "ON", "DISTINCT",
    "INSERT", "UPDATE", "DELETE", "CREATE", "DROP", "ALTER", "TABLE", "VALUES"]

  const SchemaNames: seq<string> := [
    "users", "sales", "products", "inventory", "orders", "customers",
    "id", "name", "email", "created_at", "amount", "status", "category"]

  /** The completion candidates: keywords first, then schema names. */
  const Candidates: seq<string> := Keywords + SchemaNames

  // ---------------------------------------------------------------------------
  // The word before the caret

  /** The last piece of split(/\s+/): what follows the last white-space character. */
  function LastWord(s: string): (w: string)
    ensures |w| <= |s|
    decreases |s|
  {
    if s == [] then []
    else if IsJsSpace(s[|s| - 1]) then []
    else LastWord(s[..|s| - 1]) + [s[|s| - 1]]
  }

  /** The last word ends the text, has no white space, and is the whole text or follows
      a white-space character. */
  lemma {:induction false} LastWordShape(s: string)
    ensures var w := LastWord(s);
      s[|s| - |w|..] == w
      && (forall i :: 0 <= i < |w| ==> !IsJsSpace(w[i]))
      && (|w| == |s| || IsJsSpace(s[|s| - |w| - 1]))
    decreases |s|
  {
    if s != [] && !IsJsSpace(s[|s| - 1]) {
      var init := s[..|s| - 1];
      LastWordShape(init);
      var w := LastWord(init);
      assert init[|init| - |w|..] == s[|s| - 1 - |w|..|s| - 1];
      assert s[|s| - 1 - |w|..] == w + [s[|s| - 1]];
      if |w| < |init| {
        assert s[|s| - |w| - 2] == init[|init| - |w| - 1];
      }
    }
  }

  /** text.substring(0, pos): the text before a caret, the caret clamped to the text. */
  function Before(text: string, pos: int): (r: string)
    ensures r == text[..if pos < 0 then 0 else if pos > |text| then |text| else pos]
  {
    text[..if pos < 0 then 0 else if pos > |text| then |text| else pos]
  }

  /** A candidate offered for a word: it starts with the word, ignoring case, and is not
      the word itself. */
  predicate Extends(candidate: string, word: string)
  {
    StartsWith(Lower(candidate), Lower(word)) && Lower(candidate) != Lower(word)
  }

  /** The candidates of a list that extend the word, in list order. */
  function Matches(word: string, list: seq<string>): seq<string>
  {
    Keep(list, (c: string) => Extends(c, word))
  }

  /** The suggestions shown for the text before the caret: the first five matches of a
      word of two or more characters, or none (the popup is hidden). The editor passes
      Candidates. */
  function Suggestions(before: string, list: seq<string>): (r: seq<string>)
    ensures |r| <= 5
    ensures |LastWord(before)| <= 1 ==> r == []
  {
    var word := LastWord(before);
    if |word| > 1 then
      var m := Matches(word, list);
      if |m| > 5 then m[..5] else m
    else []
  }

  /** The suggestions are the first matches in list order, each extending the word, and
      at most five of them. A case change of the word changes nothing. */
  lemma SuggestionsMeaning(before: string, list: seq<string>)
    ensures var word := LastWord(before);
      var r := Suggestions(before, list);
      (|word| > 1 ==> r == Matches(word, list)[..|r|] && (|r| == 5 || r == Matches(word, list)))
      && (forall s :: s in r ==> s in list && Extends(s, word))
  {
    var word := LastWord(before);
    var r := Suggestions(before, list);
    KeepOrder(list, (c: string) => Extends(c, word));
    if |word| > 1 {
      var m := Matches(word, list);
      assert forall s :: s in r ==> s in m;
    }
  }

  /** Words with the same lower-case form get the same matches. */
  lemma MatchesIgnoreCase(a: string, b: string, list: seq<string>)
    requires Lower(a) == Lower(b)
    ensures Matches(a, list) == Matches(b, list)
  {
    KeepSame(list, (c: string) => Extends(c, a), (c: string) => Extends(c, b));
  }

  /** The popup's anchor: lines before the caret times 20 pixels down, the length of
      the caret's line times 8 pixels across. */
  function LineCount(s: string): (n: nat)
    ensures n >= 1
    decreases |s|
  {
    if s == [] then 1 else LineCount(s[..|s| - 1]) + (if s[|s| - 1] == '\n' then 1 else 0)
  }

  /** What follows the last line break. */
  function CurrentLine(s: string): (r: string)
    ensures |r| <= |s|
    decreases |s|
  {
    if s == [] then []
    else if s[|s| - 1] == '\n' then []
    else CurrentLine(s[..|s| - 1]) + [s[|s| - 1]]
  }

  /** The caret's line ends the text and holds no line break. */
  lemma {:induction false} CurrentLineShape(s: string)
    ensures var r := CurrentLine(s);
      s[|s| - |r|..] == r && '\n' !in r && (|r| == |s| || s[|s| - |r| - 1] == '\n')
    decreases |s|
  {
    if s != [] && s[|s| - 1] != '\n' {
      var init := s[..|s| - 1];
      CurrentLineShape(init);
      var r := CurrentLine(init);
      var full := r + [s[|s| - 1]];
      assert CurrentLine(s) == full;
      assert init[|init| - |r|..] == s[|s| - 1 - |r|..|s| - 1];
      assert s[|s| - |full|..] == full;
      assert '\n' !in full by {
        assert forall c :: c in full ==> c in r || c == s[|s| - 1];
      }
      if |r| < |init| {
        assert s[|s| - |full| - 1] == init[|init| - |r| - 1];
      }
    }
  }

  datatype Coords = Coords(top: int, left: int)

  function CaretCoords(before: string): Coords
  {
    Coords(LineCount(before) * 20, |CurrentLine(before)| * 8)
  }

  /** Where the popup is drawn: 40 and 20 pixels past the anchor, at most 200 down and
      300 across. */
  function PopupPosition(c: Coords): (p: Coords)
    ensures p.top <= 200 && p.left <= 300
    ensures p.top == c.top + 40 || p.top == 200
    ensures p.left == c.left + 20 || p.left == 300
  {
    Coords(if c.top + 40 < 200 then c.top + 40 else 200, if c.left + 20 < 300 then c.left + 20 else 300)
  }

  /** On the first line the popup sits 60 pixels down, and from the eighth line on it
      stays at 200. */
  lemma PopupRows(before: string)
    ensures '\n' !in before ==> PopupPosition(CaretCoords(before)).top == 60
    ensures LineCount(before) >= 8 ==> PopupPosition(CaretCoords(before)).top == 200
  {
    if '\n' !in before {
      NoBreakOneLine(before);
    }
  }

  lemma {:induction false} NoBreakOneLine(s: string)
    requires '\n' !in s
    ensures LineCount(s) == 1
    decreases |s|
  {
    if s != [] {
      assert s[|s| - 1] in s;
      assert forall c :: c in s[..|s| - 1] ==> c in s;
      NoBreakOneLine(s[..|s| - 1]);
    }
  }

  // ---------------------------------------------------------------------------
  // Accepting a suggestion and the Tab key

  /** The text after accepting a suggestion: the word before the caret is replaced by the
      suggestion. */
  datatype Edit = Edit(text: string, caret: nat)

  function ApplySuggestion(text: string, caret: nat, suggestion: string): (e: Edit)
    requires caret <= |text|
  {
    var word := LastWord(text[..caret]);
    Edit(text[..caret - |word|] + suggestion + text[caret..], caret - |word| + |suggestion|)
  }

  /** Accepting replaces exactly the word before the caret: what precedes the word and
      what follows the caret are kept, the caret lands after the suggestion, and a
      suggestion without white space becomes the word before the new caret. */
  lemma ApplySuggestionMeaning(text: string, caret: nat, suggestion: string)
    requires caret <= |text|
    ensures var word := LastWord(text[..caret]);
      var e := ApplySuggestion(text, caret, suggestion);
      e.caret == caret - |word| + |suggestion|
      && e.text[..caret - |word|] == text[..caret - |word|]
      && e.text[caret - |word|..e.caret] == suggestion
      && e.text[e.caret..] == text[caret..]
      && |e.text| == |text| - |word| + |suggestion|
      && ((forall i :: 0 <= i < |suggestion| ==> !IsJsSpace(suggestion[i])) ==> LastWord(e.text[..e.caret]) == suggestion)
  {
    var word := LastWord(text[..caret]);
    var e := ApplySuggestion(text, caret, suggestion);
    var start := caret - |word|;
    var prefix := text[..start];
    assert e.text[..e.caret] == prefix + suggestion;
    if forall i :: 0 <= i < |suggestion| ==> !IsJsSpace(suggestion[i]) {
      LastWordShape(text[..caret]);
      assert LastWord(prefix) == [] by {
        if start > 0 {
          assert IsJsSpace(prefix[|prefix| - 1]) by { assert prefix[|prefix| - 1] == text[..caret][caret - |word| - 1]; }
        }
      }
      LastWordAppend(prefix, suggestion);
    }
  }

  lemma {:induction false} LastWordAppend(prefix: string, w: string)
    requires forall i :: 0 <= i < |w| ==> !IsJsSpace(w[i])
    ensures LastWord(prefix + w) == LastWord(prefix) + w
    decreases |w|
  {
    if w == [] {
      assert prefix + w == prefix;
    } else {
      var init := w[..|w| - 1];
      LastWordAppend(prefix, init);
      var s := prefix + w;
      assert s[..|s| - 1] == prefix + init;
      assert s[|s| - 1] == w[|w| - 1];
      assert w == init + [w[|w| - 1]];
    }
  }

  /** Tab without suggestions: the selection is replaced by two spaces and the caret goes
      after them. */
  function TabEdit(text: string, start: nat, end: nat): (e: Edit)
    requires start <= end <= |text|
    ensures e.text == text[..start] + "  " + text[end..]
    ensures e.caret == start + 2 && e.text[..e.caret] == text[..start] + "  " && e.text[e.caret..] == text[end..]
  {
    var t := text[..start] + "  " + text[end..];
    assert t[..start + 2] == text[..start] + "  ";
    assert t[start + 2..] == text[end..];
    Edit(t, start + 2)
  }

  // ---------------------------------------------------------------------------
  // The HTML escape of the highlighted backdrop

  /** Every c in s replaced by r (String.prototype.replace with a global pattern). */
  function ReplaceChar(s: string, c: char, r: string): string
    decreases |s|
  {
    if s == [] then [] else (if s[0] == c then r else [s[0]]) + ReplaceChar(s[1..], c, r)
  }

  /** The escape of one character. */
  function EscapeChar(c: char): string
  {
    if c == '&' then "&amp;" else if c == '<' then "&lt;" else if c == '>' then "&gt;" else [c]
  }

  /** The three replacements in the order the editor applies them: & first, then <, then >. */
  function EscapeHtml(text: string): string
  {
    ReplaceChar(ReplaceChar(ReplaceChar(text, '&', "&amp;"), '<', "&lt;"), '>', "&gt;")
  }

  function EscapeEach(text: string): string
    decreases |text|
  {
    if text == [] then [] else EscapeChar(text[0]) + EscapeEach(text[1..])
  }

  lemma {:induction false} ReplaceCharAppend(a: string, b: string, c: char, r: string)
    ensures ReplaceChar(a + b, c, r) == ReplaceChar(a, c, r) + ReplaceChar(b, c, r)
    decreases |a|
  {
    if a == [] {
      assert a + b == b;
    } else {
      var t := a[1..];
      ReplaceCharAppend(t, b, c, r);
      assert a == [a[0]] + t;
      assert a + b == [a[0]] + (t + b);
      ReplaceCons(a[0], t + b, c, r);
      ReplaceCons(a[0], t, c, r);
    }
  }

  lemma ReplaceCons(x: char, s: string, c: char, r: string)
    ensures ReplaceChar([x] + s, c, r) == (if x == c then r else [x]) + ReplaceChar(s, c, r)
  {
    assert ([x] + s)[0] == x && ([x] + s)[1..] == s;
  }

  lemma {:induction false} ReplaceAbsent(s: string, c: char, r: string)
    requires forall i :: 0 <= i < |s| ==> s[i] != c
    ensures ReplaceChar(s, c, r) == s
    decreases |s|
  {
    if s != [] {
      assert forall i :: 0 <= i < |s| - 1 ==> s[1..][i] == s[i + 1];
      ReplaceAbsent(s[1..], c, r);
    }
  }

  lemma ReplaceOne(x: char, c: char, r: string)
    ensures ReplaceChar([x], c, r) == if x == c then r else [x]
  {
    assert [x][1..] == [];
  }

  lemma EscapeOneChar(x: char)
    ensures EscapeHtml([x]) == EscapeChar(x)
  {
    if x == '&' {
      EscapeAmp();
    } else if x == '<' {
      EscapeLt();
    } else if x == '>' {
      EscapeGt();
    } else {
      EscapePlain(x);
    }
  }

  lemma EscapeAmp()
    ensures EscapeHtml("&") == "&amp;"
  {
    ReplaceOne('&', '&', "&amp;");
    assert ReplaceChar("&", '&', "&amp;") == "&amp;";
    ReplaceAbsent("&amp;", '<', "&lt;");
    assert ReplaceChar("&amp;", '<', "&lt;") == "&amp;";
    ReplaceAbsent("&amp;", '>', "&gt;");
  }

  lemma EscapeLt()
    ensures EscapeHtml("<") == "&lt;"
  {
    ReplaceOne('<', '&', "&amp;");
    ReplaceOne('<', '<', "&lt;");
    ReplaceAbsent("&lt;", '>', "&gt;");
  }

  lemma EscapeGt()
    ensures EscapeHtml(">") == "&gt;"
  {
    ReplaceOne('>', '&', "&amp;");
    ReplaceOne('>', '<', "&lt;");
    ReplaceOne('>', '>', "&gt;");
  }

  lemma EscapePlain(x: char)
    requires x != '&' && x != '<' && x != '>'
    ensures EscapeHtml([x]) == [x]
  {
    ReplaceOne(x, '&', "&amp;");
    ReplaceOne(x, '<', "&lt;");
    ReplaceOne(x, '>', "&gt;");
  }

  /** Replacing & first makes the three passes one escape per character: the & of an
      inserted &lt; or &gt; is never escaped again. */
  lemma {:induction false} EscapeHtmlPerChar(text: string)
    ensures EscapeHtml(text) == EscapeEach(text)
    decreases |text|
  {
    if text != [] {
      EscapeHtmlPerChar(text[1..]);
      assert text == [text[0]] + text[1..];
      ReplaceCharAppend([text[0]], text[1..], '&', "&amp;");
      var a1 := ReplaceChar([text[0]], '&', "&amp;");
      var b1 := ReplaceChar(text[1..], '&', "&amp;");
      ReplaceCharAppend(a1, b1, '<', "&lt;");
      var a2 := ReplaceChar(a1, '<', "&lt;");
      var b2 := ReplaceChar(b1, '<', "&lt;");
      ReplaceCharAppend(a2, b2, '>', "&gt;");
      EscapeOneChar(text[0]);
    }
  }

  /** Reading the entities back. */
  function Unescape(s: string): string
    decreases |s|
  {
    if s == [] then []
    else if |s| >= 5 && s[..5] == "&amp;" then "&" + Unescape(s[5..])
    else if |s| >= 4 && s[..4] == "&lt;" then "<" + Unescape(s[4..])
    else if |s| >= 4 && s[..4] == "&gt;" then ">" + Unescape(s[4..])
    else [s[0]] + Unescape(s[1..])
  }

  /** The escaped backdrop has no raw angle bracket and decodes back to the text. */
  lemma {:induction false} EscapeHtmlMeaning(text: string)
    ensures '<' !in EscapeHtml(text) && '>' !in EscapeHtml(text)
    ensures Unescape(EscapeHtml(text)) == text
    decreases |text|
  {
    EscapeHtmlPerChar(text);
    EscapeEachMeaning(text);
  }

  lemma {:induction false} EscapeEachMeaning(text: string)
    ensures '<' !in EscapeEach(text) && '>' !in EscapeEach(text)
    ensures Unescape(EscapeEach(text)) == text
    decreases |text|
  {
    if text != [] {
      EscapeEachMeaning(text[1..]);
      var rest := EscapeEach(text[1..]);
      assert EscapeEach(text) == EscapeChar(text[0]) + rest;
      UnescapeChar(text[0], rest);
      assert text == [text[0]] + text[1..];
    }
  }

  /** One escaped character decodes back to itself, whatever follows it. */
  lemma UnescapeChar(x: char, rest: string)
    ensures '<' !in EscapeChar(x) && '>' !in EscapeChar(x)
    ensures Unescape(EscapeChar(x) + rest) == [x] + Unescape(rest)
  {
    if x == '&' {
      UnescapeAmp(rest);
    } else if x == '<' {
      UnescapeLt(rest);
    } else if x == '>' {
      UnescapeGt(rest);
    } else {
      var s := [x] + rest;
      assert s[0] == x && s[1..] == rest;
      if |s| >= 4 {
        assert s[..4][0] == x;
      }
      if |s| >= 5 {
        assert s[..5][0] == x;
      }
    }
  }

  lemma UnescapeAmp(rest: string)
    ensures Unescape("&amp;" + rest) == "&" + Unescape(rest)
  {
    var s := "&amp;" + rest;
    assert s[..5] == "&amp;" && s[5..] == rest;
  }

  lemma UnescapeLt(rest: string)
    ensures Unescape("&lt;" + rest) == "<" + Unescape(rest)
  {
    var s := "&lt;" + rest;
    if |s| >= 5 {
      assert s[..5][1] == 'l';
    }
    assert s[..4] == "&lt;" && s[4..] == rest;
  }

  lemma UnescapeGt(rest: string)
    ensures Unescape("&gt;" + rest) == ">" + Unescape(rest)
  {
    var s := "&gt;" + rest;
    if |s| >= 5 {
      assert s[..5][1] == 'g';
    }
    assert s[..4][1] == 'g';
    assert s[..4] == "&gt;" && s[4..] == rest;
  }

  // ---------------------------------------------------------------------------
  // The editor's state

  datatype Key = Tab | Enter | Escape | Other

  class Editor {
    var text: string
    var suggestions: seq<string>
    var showSuggestions: bool
    var coords: Coords

    /** A popup that is shown has something in it. */
    predicate Valid()
      reads this
    {
      showSuggestions ==> |suggestions| > 0
    }

    constructor(initial: string)
      ensures Valid() && text == initial && !showSuggestions && suggestions == [] && coords == Coords(0, 0)
    {
      text, suggestions, showSuggestions, coords := initial, [], false, Coords(0, 0);
    }

    /** handleChange: the new text, then the suggestions for the word before the caret;
        the list and position are only replaced when something matches. */
    method Change(newText: string, caret: int)
      requires Valid()
      modifies this
      ensures Valid() && text == newText
      ensures var r := Suggestions(Before(newText, caret), Candidates);
        (r == [] ==> !showSuggestions && suggestions == old(suggestions) && coords == old(coords))
        && (r != [] ==> showSuggestions && suggestions == r && coords == CaretCoords(Before(newText, caret)))
    {
      text := newText;
      var before := Before(newText, caret);
      var r := Suggestions(before, Candidates);
      if r != [] {
        suggestions, showSuggestions := r, true;
        coords := CaretCoords(before);
      } else {
        showSuggestions := false;
      }
    }

    /** handleKeyDown: Tab accepts the first suggestion when the popup is shown and
        otherwise indents the selection by two spaces; Enter accepts the first suggestion
        when the popup is shown; Escape hides it. Returns the caret afterwards. */
    method KeyDown(key: Key, start: nat, end: nat) returns (caret: nat)
      requires Valid() && start <= end <= |text|
      modifies this
      ensures Valid() && suggestions == old(suggestions) && coords == old(coords)
      ensures (key == Tab || key == Enter) && old(showSuggestions) ==>
        var e := ApplySuggestion(old(text), start, old(suggestions)[0]);
        text == e.text && caret == e.caret && !showSuggestions
      ensures key == Tab && !old(showSuggestions) ==>
        var e := TabEdit(old(text), start, end);
        text == e.text && caret == e.caret && !showSuggestions
      ensures key == Escape ==> text == old(text) && caret == start && !showSuggestions
      ensures key == Other || (key == Enter && !old(showSuggestions)) ==>
        text == old(text) && caret == start && showSuggestions == old(showSuggestions)
    {
      caret := start;
      if (key == Tab || key == Enter) && showSuggestions {
        var e := ApplySuggestion(text, start, suggestions[0]);
        text, caret := e.text, e.caret;
        showSuggestions := false;
      } else if key == Tab {
        var e := TabEdit(text, start, end);
        text, caret := e.text, e.caret;
      } else if key == Escape {
        showSuggestions := false;
      }
    }

    /** A click on the i-th entry of the shown popup accepts that suggestion at the
        caret and hides the popup. Returns the caret afterwards. */
    method Click(i: nat, caret: nat) returns (newCaret: nat)
      requires Valid() && showSuggestions && i < |suggestions| && caret <= |text|
      modifies this
      ensures Valid() && !showSuggestions && suggestions == old(suggestions) && coords == old(coords)
      ensures var e := ApplySuggestion(old(text), caret, old(suggestions)[i]);
        text == e.text && newCaret == e.caret
    {
      var e := ApplySuggestion(text, caret, suggestions[i]);
      text, newCaret := e.text, e.caret;
      showSuggestions := false;
    }
  }
}
