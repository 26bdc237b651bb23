/** The word splitter behind `exec` and `exec-once` lines. */
module ShellSplit {
  import opened Wrappers

  predicate IsBlank(c: char) {
    c == ' ' || c == '\t'
  }

  /** What the splitter's loop does with the rest of the text, from its four variables on. */
  function Scan(s: string, out: seq<string>, cur: string, inQuote: bool, hadToken: bool): Option<seq<string>>
    decreases |s|
  {
    if s == "" then
      if inQuote then None else if hadToken then Some(out + [cur]) else Some(out)
    else if s[0] == '\\' && inQuote then
      if |s| == 1 then None else Scan(s[2..], out, cur + [s[1]], true, hadToken)
    else if s[0] == '"' then Scan(s[1..], out, cur, !inQuote, true)
    else if IsBlank(s[0]) && !inQuote then
      if hadToken then Scan(s[1..], out + [cur], "", false, false) else Scan(s[1..], out, cur, false, false)
    else Scan(s[1..], out, cur + [s[0]], inQuote, true)
  }

  function Split(s: string): Option<seq<string>> {
    Scan(s, [], "", false, false)
  }

  method SplitLoop(s: string) returns (words: Option<seq<string>>)
    ensures words == Split(s)
  {
    var out, cur, inQuote, hadToken := [], "", false, false;
    var i := 0;
    while i < |s|
      invariant 0 <= i <= |s|
      invariant Scan(s[i..], out, cur, inQuote, hadToken) == Split(s)
    {
      var c := s[i];
      assert s[i..][1..] == s[i + 1..];
      i := i + 1;
      if c == '\\' && inQuote {
        if i == |s| {
          return None;
        }
        assert s[i - 1..][2..] == s[i + 1..];
        cur := cur + [s[i]];
        i := i + 1;
      } else if c == '"' {
        inQuote := !inQuote;
        hadToken := true;
      } else if IsBlank(c) && !inQuote {
        if hadToken {
          out, cur := out + [cur], "";
          hadToken := false;
        }
      } else {
        cur := cur + [c];
        hadToken := true;
      }
    }
    if inQuote {
      return None;
    }
    if hadToken {
      out := out + [cur];
    }
    return Some(out);
  }

  // ---- The grammar ----

  /** A character between quotes: itself, or any character after a backslash. */
  datatype Glyph = Plain(c: char) | Escaped(c: char)

  /** A line is a sequence of blanks, unquoted characters and quoted strings. A backslash outside
      quotes is an ordinary character. */
  datatype Item = Blank(c: char) | Bare(c: char) | Quoted(glyphs: seq<Glyph>)

  predicate IsItem(item: Item) {
    match item
    case Blank(c) => IsBlank(c)
    case Bare(c) => !IsBlank(c) && c != '"'
    case Quoted(glyphs) => forall g <- glyphs :: g.Plain? ==> g.c != '"' && g.c != '\\'
  }

  predicate IsLine(line: seq<Item>) {
    forall item <- line :: IsItem(item)
  }

  function PrintGlyph(g: Glyph): string {
    if g.Plain? then [g.c] else ['\\', g.c]
  }

  function PrintGlyphs(glyphs: seq<Glyph>): string {
    if glyphs == [] then "" else PrintGlyph(glyphs[0]) + PrintGlyphs(glyphs[1..])
  }

  function PrintItem(item: Item): (s: string)
    ensures s != ""
  {
    if item.Quoted? then ['"'] + PrintGlyphs(item.glyphs) + ['"'] else [item.c]
  }

  function Print(line: seq<Item>): string {
    if line == [] then "" else PrintItem(line[0]) + Print(line[1..])
  }

  function Text(glyphs: seq<Glyph>): string {
    if glyphs == [] then "" else [glyphs[0].c] + Text(glyphs[1..])
  }

  function TextOf(item: Item): string {
    if item.Quoted? then Text(item.glyphs) else [item.c]
  }

  predicate StartsWithWord(line: seq<Item>) {
    line != [] && !line[0].Blank?
  }

  /** The words of a line: the text of each longest stretch without blanks. */
  function Words(line: seq<Item>): (words: seq<string>)
    ensures StartsWithWord(line) ==> words != []
  {
    if line == [] then []
    else if line[0].Blank? then Words(line[1..])
    else Glue(TextOf(line[0]), StartsWithWord(line[1..]), Words(line[1..]))
  }

  /** Puts `start` before `words`, as a word of its own or as the beginning of the first one. */
  function Glue(start: string, joined: bool, words: seq<string>): (r: seq<string>)
    requires joined ==> words != []
    ensures r != []
  {
    if joined then [start + words[0]] + words[1..] else [start] + words
  }

  /** The words of a line that continues a word beginning with `start`. */
  function Attach(start: string, line: seq<Item>): seq<string> {
    Glue(start, StartsWithWord(line), Words(line))
  }

  lemma AttachBlank(start: string, line: seq<Item>)
    requires line != [] && line[0].Blank?
    ensures Attach(start, line) == [start] + Words(line[1..])
  {
  }

  lemma AttachText(start: string, text: string, line: seq<Item>)
    requires StartsWithWord(line) && text == TextOf(line[0])
    ensures Attach(start, line) == Attach(start + text, line[1..])
  {
    if StartsWithWord(line[1..]) {
      var words := Words(line[1..]);
      assert start + (text + words[0]) == start + text + words[0];
    }
  }

  // ---- The splitter recognises exactly the grammar ----

  lemma ScanGlyph(g: Glyph, rest: string, out: seq<string>, cur: string)
    requires g.Plain? ==> g.c != '"' && g.c != '\\'
    ensures Scan(PrintGlyph(g) + rest, out, cur, true, true) == Scan(rest, out, cur + [g.c], true, true)
  {
    var s := PrintGlyph(g) + rest;
    assert s[|PrintGlyph(g)|..] == rest;
  }

  lemma {:induction false} ScanGlyphs(glyphs: seq<Glyph>, rest: string, out: seq<string>, cur: string)
    requires IsItem(Quoted(glyphs))
    ensures Scan(PrintGlyphs(glyphs) + ['"'] + rest, out, cur, true, true) == Scan(rest, out, cur + Text(glyphs), false, true)
  {
    var s := PrintGlyphs(glyphs) + ['"'] + rest;
    if glyphs == [] {
      assert s == ['"'] + rest;
      ScanClosingQuote(rest, out, cur);
      assert cur + Text(glyphs) == cur;
    } else {
      var g, tail := glyphs[0], PrintGlyphs(glyphs[1..]) + ['"'] + rest;
      assert s == PrintGlyph(g) + tail;
      ScanGlyph(g, tail, out, cur);
      ScanGlyphs(glyphs[1..], rest, out, cur + [g.c]);
      assert cur + [g.c] + Text(glyphs[1..]) == cur + Text(glyphs);
    }
  }

  lemma {:induction false} ScanLine(line: seq<Item>, out: seq<string>, cur: string, hadToken: bool)
    requires IsLine(line) && (hadToken || cur == "")
    ensures Scan(Print(line), out, cur, false, hadToken) == Some(out + if hadToken then Attach(cur, line) else Words(line))
  {
    if line == [] {
      assert [cur] + [] == [cur] && out + [] == out;
    } else {
      var item, tail := line[0], line[1..];
      var text := TextOf(item);
      assert IsItem(item);
      ScanItem(item, Print(tail), out, cur, hadToken);
      if !item.Blank? {
        ScanLine(tail, out, cur + text, true);
        StartsWith(line, cur, hadToken, text);
      } else if hadToken {
        ScanLine(tail, out + [cur], "", false);
        AttachBlank(cur, line);
        assert out + [cur] + Words(tail) == out + ([cur] + Words(tail));
      } else {
        ScanLine(tail, out, cur, false);
      }
    }
  }

  lemma ScanItem(item: Item, rest: string, out: seq<string>, cur: string, hadToken: bool)
    requires IsItem(item)
    ensures Scan(PrintItem(item) + rest, out, cur, false, hadToken)
         == if !item.Blank? then Scan(rest, out, cur + TextOf(item), false, true)
            else if hadToken then Scan(rest, out + [cur], "", false, false)
            else Scan(rest, out, cur, false, false)
  {
    if item.Quoted? {
      var tail := PrintGlyphs(item.glyphs) + ['"'] + rest;
      assert PrintItem(item) + rest == ['"'] + tail;
      ScanOpeningQuote(tail, out, cur, hadToken);
      ScanGlyphs(item.glyphs, rest, out, cur);
    } else {
      assert ([item.c] + rest)[1..] == rest;
    }
  }

  lemma ScanClosingQuote(rest: string, out: seq<string>, cur: string)
    ensures Scan(['"'] + rest, out, cur, true, true) == Scan(rest, out, cur, false, true)
  {
    assert (['"'] + rest)[1..] == rest;
  }

  lemma ScanOpeningQuote(rest: string, out: seq<string>, cur: string, hadToken: bool)
    ensures Scan(['"'] + rest, out, cur, false, hadToken) == Scan(rest, out, cur, true, true)
  {
    assert (['"'] + rest)[1..] == rest;
  }

  lemma PrintedLineSplits(line: seq<Item>)
    requires IsLine(line)
    ensures Split(Print(line)) == Some(Words(line))
  {
    ScanLine(line, [], "", false);
    assert [] + Words(line) == Words(line);
  }

  lemma StartsWith(line: seq<Item>, cur: string, hadToken: bool, text: string)
    requires StartsWithWord(line) && text == TextOf(line[0]) && (hadToken || cur == "")
    ensures Attach(cur + text, line[1..]) == if hadToken then Attach(cur, line) else Words(line)
  {
    if hadToken {
      AttachText(cur, text, line);
    } else {
      assert cur + text == text;
    }
  }

  /** Whether the text ends inside a quote, reading from outside or inside one. */
  predicate EndsQuoted(s: string, inQuote: bool)
    decreases |s|
  {
    if s == "" then inQuote
    else if s[0] == '\\' && inQuote then |s| == 1 || EndsQuoted(s[2..], true)
    else EndsQuoted(s[1..], (s[0] == '"') != inQuote)
  }

  /** There are no words exactly when a quote, or an escape inside a quote, is left open. */
  lemma {:induction false} NoneIff(s: string, out: seq<string>, cur: string, inQuote: bool, hadToken: bool)
    ensures Scan(s, out, cur, inQuote, hadToken).None? <==> EndsQuoted(s, inQuote)
    decreases |s|
  {
    if s != "" {
      var c := s[0];
      if c == '\\' && inQuote {
        if |s| > 1 {
          NoneIff(s[2..], out, cur + [s[1]], true, hadToken);
        }
      } else if c == '"' {
        NoneIff(s[1..], out, cur, !inQuote, true);
      } else if IsBlank(c) && !inQuote {
        NoneIff(s[1..], if hadToken then out + [cur] else out, if hadToken then "" else cur, false, false);
      } else {
        NoneIff(s[1..], out, cur + [c], inQuote, true);
      }
    }
  }

  /** A text that does not end inside a quote is a line of the grammar. */
  lemma {:induction false} IsPrinted(s: string) returns (line: seq<Item>)
    requires !EndsQuoted(s, false)
    ensures IsLine(line) && Print(line) == s
    decreases |s|
  {
    if s == "" {
      line := [];
    } else {
      var item, rest;
      if s[0] == '"' {
        var glyphs;
        glyphs, rest := IsPrintedQuote(s[1..]);
        item := Quoted(glyphs);
      } else {
        item, rest := if IsBlank(s[0]) then Blank(s[0]) else Bare(s[0]), s[1..];
      }
      var tail := IsPrinted(rest);
      line := [item] + tail;
      assert line[1..] == tail;
    }
  }

  lemma {:induction false} IsPrintedQuote(s: string) returns (glyphs: seq<Glyph>, rest: string)
    requires !EndsQuoted(s, true)
    ensures IsItem(Quoted(glyphs)) && PrintGlyphs(glyphs) + ['"'] + rest == s
    ensures |rest| < |s| && !EndsQuoted(rest, false)
    decreases |s|
  {
    if s[0] == '"' {
      glyphs, rest := [], s[1..];
    } else {
      var g, after := if s[0] == '\\' then Escaped(s[1]) else Plain(s[0]), if s[0] == '\\' then s[2..] else s[1..];
      var tail;
      tail, rest := IsPrintedQuote(after);
      glyphs := [g] + tail;
      assert glyphs[1..] == tail;
    }
  }

  /** Splitting inverts printing, for every list of words however written, and nothing else splits. */
  lemma SplitIff(s: string, words: seq<string>)
    ensures Split(s) == Some(words) <==> exists line: seq<Item> :: IsLine(line) && Print(line) == s && Words(line) == words
  {
    forall line: seq<Item> | IsLine(line)
      ensures Split(Print(line)) == Some(Words(line))
    {
      PrintedLineSplits(line);
    }
    if Split(s) == Some(words) {
      NoneIff(s, [], "", false, false);
      var line := IsPrinted(s);
      assert Words(line) == words;
    }
  }

  /** Splitting fails exactly on the texts that end inside a quote, which no line prints. */
  lemma SplitFailsIff(s: string)
    ensures Split(s) == None <==> EndsQuoted(s, false)
    ensures Split(s) == None <==> forall line: seq<Item> :: IsLine(line) ==> Print(line) != s
  {
    NoneIff(s, [], "", false, false);
    forall line: seq<Item> | IsLine(line)
      ensures Split(Print(line)) == Some(Words(line))
    {
      PrintedLineSplits(line);
    }
    if Split(s) != None {
      var line := IsPrinted(s);
    }
  }

  // ---- Quoting every word ----

  /** A word between double quotes, with quotes and backslashes escaped. */
  function Quote(word: string): seq<Glyph> {
    if word == "" then []
    else [if word[0] == '"' || word[0] == '\\' then Escaped(word[0]) else Plain(word[0])] + Quote(word[1..])
  }

  /** The words, quoted, with a space between them. */
  function QuoteAll(words: seq<string>): seq<Item> {
    if words == [] then []
    else [Quoted(Quote(words[0]))] + (if |words| == 1 then [] else [Blank(' ')]) + QuoteAll(words[1..])
  }

  lemma {:induction false} QuoteIsText(word: string)
    ensures Text(Quote(word)) == word && IsItem(Quoted(Quote(word)))
  {
    if word != "" {
      QuoteIsText(word[1..]);
    }
  }

  lemma {:induction false} QuoteAllIsLine(words: seq<string>)
    ensures IsLine(QuoteAll(words)) && Words(QuoteAll(words)) == words
  {
    if words != [] {
      QuoteIsText(words[0]);
      QuoteAllIsLine(words[1..]);
      var line := QuoteAll(words);
      if |words| == 1 {
        assert line[1..] == [];
      } else {
        assert line[1..] == [Blank(' ')] + QuoteAll(words[1..]);
        assert line[1..][1..] == QuoteAll(words[1..]);
      }
    }
  }

  /** Any words at all, quoted and joined with spaces, split back into the same words. */
  lemma QuotingRoundTrips(words: seq<string>)
    ensures Split(Print(QuoteAll(words))) == Some(words)
  {
    QuoteAllIsLine(words);
    PrintedLineSplits(QuoteAll(words));
  }
}
