/**
 The comment stripper of tests/audit-round7-groups.test.ts: one scan that copies string literals, turns each
 comment into a space, and then collapses white space.
 */
module CommentStripper {
  import opened Results

  predicate IsQuote(c: char) {
    c == '"' || c == '\'' || c == '`'
  }

  /** What `\s` matches in a regular expression of the language. */
  predicate IsSpace(c: char) {
    c == ' ' || c == '\t' || c == '\n' || c == '\r' || c == '\U{B}' || c == '\U{C}' || c == '\U{A0}' ||
    c == '\U{1680}' || '\U{2000}' <= c <= '\U{200A}' || c == '\U{2028}' || c == '\U{2029}' || c == '\U{202F}' ||
    c == '\U{205F}' || c == '\U{3000}' || c == '\U{FEFF}'
  }

  /** The literal the scan is inside, by its quote. */
  type Quote = q: Option<char> | q.None? || IsQuote(q.value) witness None

  predicate OpensComment(s: string) {
    |s| >= 2 && s[0] == '/' && (s[1] == '/' || s[1] == '*')
  }

  function AfterLine(s: string): (r: string)
    ensures |r| <= |s|
  {
    if |s| == 0 then [] else if s[0] == '\n' then s[1..] else AfterLine(s[1..])
  }

  function AfterBlock(s: string): (r: string)
    ensures |r| <= |s|
  {
    if |s| < 2 then [] else if s[0] == '*' && s[1] == '/' then s[2..] else AfterBlock(s[1..])
  }

  /** What is left behind a comment: past its newline, or past its closing mark, or nothing. */
  function AfterComment(s: string): (r: string)
    requires OpensComment(s)
    ensures |r| < |s|
  {
    if s[1] == '/' then AfterLine(s) else AfterBlock(s[2..])
  }

  /** The quote after one character of code, and the length of one step inside a literal. */
  function Step(q: Quote, s: string): (r: (Quote, nat))
    requires |s| > 0 && (q.Some? || !OpensComment(s))
    ensures 0 < r.1 <= |s|
  {
    if q.None? then (if IsQuote(s[0]) then Some(s[0]) else None, 1)
    else if s[0] == '\\' then (q, if |s| > 1 then 2 else 1)
    else (if s[0] == q.value then None else q, 1)
  }

  /** The scan before white space is collapsed. */
  function Raw(q: Quote, s: string): string
    decreases |s|
  {
    if |s| == 0 then []
    else if q.None? && OpensComment(s) then " " + Raw(None, AfterComment(s))
    else
      var (q2, n) := Step(q, s);
      s[..n] + Raw(q2, s[n..])
  }

  function Collapse(s: string, inSpace: bool): string {
    if |s| == 0 then []
    else if IsSpace(s[0]) then (if inSpace then [] else " ") + Collapse(s[1..], true)
    else [s[0]] + Collapse(s[1..], false)
  }

  function Code(text: string): string {
    Collapse(Raw(None, text), false)
  }

  // ---------------------------------------------------------------- the source's loop

  /** The `indexOf` of the block case: the first closing mark at or after `from`. */
  method IndexOfClose(text: string, from: nat) returns (end: int)
    requires from <= |text|
    ensures end == -1 || from <= end < |text| - 1
    ensures end == -1 ==> AfterBlock(text[from..]) == []
    ensures end >= 0 ==> AfterBlock(text[from..]) == text[end + 2..]
  {
    end := from;
    while end + 1 < |text|
      invariant from <= end <= |text|
      invariant AfterBlock(text[from..]) == AfterBlock(text[end..])
    {
      assert text[end..][1..] == text[end + 1..] && text[end..][2..] == text[end + 2..];
      if text[end] == '*' && text[end + 1] == '/' {
        return;
      }
      end := end + 1;
    }
    end := -1;
  }

  /** One plain step of the scan moves its characters from the text to the output. */
  lemma CopyPlain(out: string, q: Quote, text: string, i: nat, whole: string)
    requires i < |text| && (q.Some? || !OpensComment(text[i..])) && out + Raw(q, text[i..]) == whole
    ensures var (q2, n) := Step(q, text[i..]);
            i + n <= |text| && (out + text[i..i + n]) + Raw(q2, text[i + n..]) == whole
  {
    var (q2, n) := Step(q, text[i..]);
    assert text[i..][..n] == text[i..i + n] && text[i..][n..] == text[i + n..];
  }

  /** A comment leaves one space. */
  lemma DropComment(out: string, text: string, i: nat, whole: string)
    requires i < |text| && OpensComment(text[i..]) && out + Raw(None, text[i..]) == whole
    ensures var rest := if text[i + 1] == '/' then AfterLine(text[i..]) else AfterBlock(text[i + 2..]);
            (out + " ") + Raw(None, rest) == whole
  {
    assert text[i..][2..] == text[i + 2..];
  }

  method SkipLine(text: string, from: nat) returns (i: nat)
    requires from <= |text|
    ensures from <= i <= |text| && AfterLine(text[from..]) == (if i < |text| then text[i + 1..] else [])
    ensures from < |text| && text[from] != '\n' ==> i > from
  {
    i := from;
    while i < |text| && text[i] != '\n'
      invariant from <= i <= |text|
      invariant AfterLine(text[i..]) == AfterLine(text[from..])
    {
      assert text[i..][1..] == text[i + 1..];
      i := i + 1;
    }
    if i < |text| {
      assert text[i..][1..] == text[i + 1..];
    }
  }

  method Strip(text: string) returns (out: string)
    ensures out == Code(text)
  {
    hide Raw, Collapse, AfterLine, AfterBlock, IsSpace;
    out := "";
    var quote: Quote := None;
    var i := 0;
    assert text[|text|..] == [];
    while i < |text|
      invariant 0 <= i <= |text|
      invariant out + Raw(quote, text[i..]) == Raw(None, text)
      decreases |text| - i
    {
      var c := text[i];
      if quote.Some? {
        out, i, quote := InLiteral(out, quote, text, i);
        continue;
      }
      if c == '/' && i + 1 < |text| && text[i + 1] == '/' {
        DropComment(out, text, i, Raw(None, text));
        i := SkipLine(text, i);
        out := out + " ";
        i := if i < |text| then i + 1 else i;
        continue;
      }
      if c == '/' && i + 1 < |text| && text[i + 1] == '*' {
        DropComment(out, text, i, Raw(None, text));
        var end := IndexOfClose(text, i + 2);
        out := out + " ";
        i := if end < 0 then |text| else end + 2;
        continue;
      }
      CopyPlain(out, quote, text, i, Raw(None, text));
      assert text[i..i + 1] == [c];
      if c == '"' || c == '\'' || c == '`' {
        quote := Some(c);
      }
      out := out + [c];
      i := i + 1;
    }
    assert text[i..] == [];
    RawEmpty(quote);
    assert out + [] == out;
    out := CollapseSpace(out);
  }

  /** One character of a literal, with the one it escapes. */
  method InLiteral(before: string, q: Quote, text: string, at: nat) returns (out: string, i: nat, quote: Quote)
    requires at < |text| && q.Some?
    ensures at < i <= |text| && out + Raw(quote, text[i..]) == before + Raw(q, text[at..])
  {
    hide Raw;
    var c := text[at];
    CopyPlain(before, q, text, at, before + Raw(q, text[at..]));
    out, i, quote := before + [c], at + 1, q;
    assert text[at..at + 1] == [c];
    if c == '\\' {
      if at + 1 < |text| {
        assert text[at..at + 2] == [c] + [text[at + 1]];
        out := out + [text[at + 1]];
        assert out == before + text[at..at + 2];
        i := at + 2;
      }
    } else if c == q.value {
      quote := None;
    }
  }

  lemma RawEmpty(q: Quote)
    ensures Raw(q, []) == []
  {
  }

  /** `out.replace(/\s+/g, " ")`: each run of white space becomes one space. */
  method CollapseSpace(s: string) returns (out: string)
    ensures out == Collapse(s, false)
  {
    hide IsSpace, Collapse;
    out := "";
    var i := 0;
    var inSpace := false;
    assert s[0..] == s;
    while i < |s|
      invariant 0 <= i <= |s|
      invariant out + Collapse(s[i..], inSpace) == Collapse(s, false)
    {
      CollapseAt(out, s, i, inSpace);
      if IsSpace(s[i]) {
        if !inSpace {
          out := out + " ";
        }
        inSpace := true;
      } else {
        out := out + [s[i]];
        inSpace := false;
      }
      i := i + 1;
    }
    CollapseEmpty(inSpace);
    assert s[i..] == [] && out + [] == out;
  }

  /** One character moves from the text to the output. */
  lemma CollapseAt(out: string, s: string, i: nat, inSpace: bool)
    requires i < |s|
    ensures var seen := if !IsSpace(s[i]) then [s[i]] else if inSpace then [] else " ";
            (out + seen) + Collapse(s[i + 1..], IsSpace(s[i])) == out + Collapse(s[i..], inSpace)
  {
    assert s[i..][1..] == s[i + 1..];
  }

  // ---------------------------------------------------------------- no comment survives

  /** The scan meets no comment opener outside a literal. */
  predicate NoComments(q: Quote, s: string)
    decreases |s|
  {
    |s| == 0 ||
    ((q.Some? || !OpensComment(s)) &&
     var (q2, n) := Step(q, s);
     NoComments(q2, s[n..]))
  }

  /** A scan that meets no comment copies its text. */
  lemma {:induction false} RawCopies(q: Quote, s: string)
    requires NoComments(q, s)
    ensures Raw(q, s) == s
    decreases |s|
  {
    if |s| > 0 {
      var (q2, n) := Step(q, s);
      RawCopies(q2, s[n..]);
      assert s == s[..n] + s[n..];
    }
  }

  /** One character before a text: it opens no comment unless it is a slash before a slash or a star. */
  lemma PrependPlain(c: char, s: string)
    requires NoComments(if IsQuote(c) then Some(c) else None, s)
    requires c == '/' ==> |s| == 0 || (s[0] != '/' && s[0] != '*')
    ensures NoComments(None, [c] + s)
  {
    assert ([c] + s)[1..] == s;
  }

  lemma RawFirst(s: string)
    requires |s| > 0 && !OpensComment(s)
    ensures |Raw(None, s)| > 0 && Raw(None, s)[0] == s[0]
  {
  }

  lemma {:induction false} RawHasNoComments(q: Quote, s: string)
    ensures NoComments(q, Raw(q, s))
    decreases |s|
  {
    if |s| == 0 {
    } else if q.None? && OpensComment(s) {
      RawHasNoComments(None, AfterComment(s));
      PrependPlain(' ', Raw(None, AfterComment(s)));
    } else {
      var (q2, n) := Step(q, s);
      var tail := Raw(q2, s[n..]);
      RawHasNoComments(q2, s[n..]);
      var r := s[..n] + tail;
      assert r[n..] == tail && r[0] == s[0];
      if q.None? {
        if s[0] == '/' && |s| > 1 {
          SlashThen(s);
        }
      } else {
        assert Step(q, r) == (q2, n) by {
          if s[0] == '\\' && n == 1 {
            assert s[n..] == [];
          }
        }
      }
    }
  }

  /** A slash that opens no comment is followed in the output by what followed it, or by a space. */
  lemma SlashThen(s: string)
    requires |s| > 1 && s[0] == '/' && !OpensComment(s)
    ensures var tail := Raw(None, s[1..]); |tail| > 0 && tail[0] != '/' && tail[0] != '*'
  {
    assert !OpensComment(s[1..]);
    RawFirst(s[1..]);
  }

  lemma {:induction false} CollapseFirst(s: string)
    requires |s| > 0
    ensures |Collapse(s, false)| > 0 && (Collapse(s, false)[0] == s[0] || Collapse(s, false)[0] == ' ')
    ensures !IsSpace(s[0]) ==> Collapse(s, true) == Collapse(s, false) && Collapse(s, false)[0] == s[0]
  {
  }

  /** Collapsing white space never joins a slash to a slash or a star, nor changes where a literal ends. */
  lemma {:induction false} CollapseKeepsNoComments(q: Quote, s: string, inSpace: bool)
    requires NoComments(q, s)
    ensures NoComments(q, Collapse(s, inSpace))
    decreases |s|
  {
    if |s| == 0 {
    } else {
      var (q2, n) := Step(q, s);
      if IsSpace(s[0]) {
        CollapseKeepsNoComments(q, s[1..], true);
        PrependInside(q, ' ', Collapse(s[1..], true));
        CollapseSpaceFirst(s, inSpace);
      } else if n == 1 {
        CollapseKeepsNoComments(q2, s[1..], false);
        var tail := Collapse(s[1..], false);
        if |s| > 1 {
          CollapseFirst(s[1..]);
        }
        assert ([s[0]] + tail)[1..] == tail;
      } else {
        EscapeCollapses(q, s);
        var space := IsSpace(s[1]);
        CollapseKeepsNoComments(q, s[2..], space);
        var tail := Collapse(s[2..], space);
        var r := [s[0], if space then ' ' else s[1]] + tail;
        assert r[2..] == tail;
        assert Step(q, r) == (q, 2);
      }
    }
  }

  lemma CollapseSpaceFirst(s: string, inSpace: bool)
    requires |s| > 0 && IsSpace(s[0])
    ensures Collapse(s, inSpace) == if inSpace then Collapse(s[1..], true) else " " + Collapse(s[1..], true)
  {
  }

  lemma EscapeCollapses(q: Quote, s: string)
    requires |s| > 1 && s[0] == '\\'
    ensures var space := IsSpace(s[1]);
            forall b :: Collapse(s, b) == [s[0], if space then ' ' else s[1]] + Collapse(s[2..], space)
  {
    assert s[1..][1..] == s[2..];
    assert !IsSpace(s[0]);
  }

  lemma PrependInside(q: Quote, c: char, s: string)
    requires NoComments(q, s) && IsSpace(c) && (q.Some? ==> c != q.value)
    ensures NoComments(q, [c] + s)
  {
    assert ([c] + s)[1..] == s;
  }

  lemma {:induction false} CollapseTwice(s: string, inSpace: bool)
    ensures Collapse(Collapse(s, inSpace), inSpace) == Collapse(s, inSpace)
  {
    if |s| > 0 {
      if IsSpace(s[0]) {
        CollapseTwice(s[1..], true);
        CollapseSpaceFirst(s, inSpace);
        if !inSpace {
          assert (" " + Collapse(s[1..], true))[1..] == Collapse(s[1..], true);
        }
      } else {
        CollapseTwice(s[1..], false);
        assert ([s[0]] + Collapse(s[1..], false))[1..] == Collapse(s[1..], false);
      }
    }
  }

  /** The output has no comment opener outside a string literal. */
  lemma OutputHasNoComments(text: string)
    ensures NoComments(None, Code(text))
  {
    RawHasNoComments(None, text);
    CollapseKeepsNoComments(None, Raw(None, text), false);
  }

  /** Stripping is idempotent. */
  lemma StripIsIdempotent(text: string)
    ensures Code(Code(text)) == Code(text)
  {
    OutputHasNoComments(text);
    RawCopies(None, Code(text));
    CollapseTwice(Raw(None, text), false);
  }

  // ---------------------------------------------------------------- literals survive

  /** The text without its white space. */
  function Solid(s: string): string {
    if |s| == 0 then [] else (if IsSpace(s[0]) then [] else [s[0]]) + Solid(s[1..])
  }

  lemma {:induction false} SolidAppend(a: string, b: string)
    ensures Solid(a + b) == Solid(a) + Solid(b)
  {
    if |a| == 0 {
      assert a + b == b;
    } else {
      assert (a + b)[1..] == a[1..] + b;
      SolidAppend(a[1..], b);
    }
  }

  /** The non-space characters of the string literals of a text, quotes and escapes included, in order. */
  function Literals(q: Quote, s: string): string
    decreases |s|
  {
    if |s| == 0 then []
    else if q.None? && OpensComment(s) then Literals(None, AfterComment(s))
    else
      var (q2, n) := Step(q, s);
      (if q.Some? || q2.Some? then Solid(s[..n]) else []) + Literals(q2, s[n..])
  }

  lemma {:induction false} RawKeepsLiterals(q: Quote, s: string)
    ensures Literals(q, Raw(q, s)) == Literals(q, s)
    decreases |s|
  {
    if |s| == 0 {
    } else if q.None? && OpensComment(s) {
      var rest := AfterComment(s);
      RawKeepsLiterals(None, rest);
      assert (" " + Raw(None, rest))[1..] == Raw(None, rest);
    } else {
      var (q2, n) := Step(q, s);
      RawKeepsLiterals(q2, s[n..]);
      RawHasNoComments(q, s);
      var r := Raw(q, s);
      assert r == s[..n] + Raw(q2, s[n..]) && r[n..] == Raw(q2, s[n..]) && r[..n] == s[..n];
      assert Step(q, r) == (q2, n) by {
        if q.Some? && s[0] == '\\' && n == 1 {
          assert s[n..] == [];
        }
      }
    }
  }

  /** One step of the literal reading, for a text cut as head and tail at a step of the scan. */
  lemma LiteralsStep(q: Quote, q2: Quote, head: string, tail: string)
    requires |head| > 0 && (q.Some? || !OpensComment(head + tail)) && Step(q, head + tail) == (q2, |head|)
    ensures Literals(q, head + tail) == (if q.Some? || q2.Some? then Solid(head) else []) + Literals(q2, tail)
  {
    assert (head + tail)[..|head|] == head && (head + tail)[|head|..] == tail;
  }

  lemma {:induction false} CollapseKeepsLiterals(q: Quote, s: string, inSpace: bool)
    requires NoComments(q, s)
    ensures Literals(q, Collapse(s, inSpace)) == Literals(q, s)
    decreases |s|
  {
    hide IsSpace, Literals, Collapse;
    if |s| == 0 {
      assert Collapse(s, inSpace) == s by {
        CollapseEmpty(inSpace);
      }
    } else if IsSpace(s[0]) {
      SpaceStep(q, s);
      CollapseKeepsLiterals(q, s[1..], true);
      CollapseSpaceFirst(s, inSpace);
      SpaceIsSilent(q, s[0], s[1..]);
      assert s == [s[0]] + s[1..];
      if !inSpace {
        SpaceIsSilent(q, ' ', Collapse(s[1..], true));
      }
    } else if Step(q, s).1 == 1 {
      CollapseKeepsLiterals(Step(q, s).0, s[1..], false);
      SolidKeepsLiterals(q, s, inSpace);
    } else {
      CollapseKeepsLiterals(q, s[2..], IsSpace(s[1]));
      EscapeKeepsLiterals(q, s, inSpace);
    }
  }

  lemma CollapseEmpty(inSpace: bool)
    ensures Collapse([], inSpace) == []
  {
  }

  lemma SpaceStep(q: Quote, s: string)
    requires |s| > 0 && IsSpace(s[0]) && NoComments(q, s)
    ensures Step(q, s) == (q, 1) && NoComments(q, s[1..])
  {
  }

  /** White space adds nothing to the literals. */
  lemma SpaceIsSilent(q: Quote, c: char, s: string)
    requires IsSpace(c)
    ensures Literals(q, [c] + s) == Literals(q, s)
  {
    LiteralsStep(q, q, [c], s);
    assert Solid([c]) == [];
  }

  lemma SolidKeepsLiterals(q: Quote, s: string, inSpace: bool)
    requires |s| > 0 && NoComments(q, s) && !IsSpace(s[0]) && Step(q, s).1 == 1
    requires Literals(Step(q, s).0, Collapse(s[1..], false)) == Literals(Step(q, s).0, s[1..])
    ensures Literals(q, Collapse(s, inSpace)) == Literals(q, s)
  {
    CollapseKeepsNoComments(q, s, inSpace);
    var tail := Collapse(s[1..], false);
    if |s| > 1 {
      CollapseFirst(s[1..]);
    }
    assert Collapse(s, inSpace) == [s[0]] + tail && s == [s[0]] + s[1..];
    assert Step(q, [s[0]] + tail) == Step(q, s) by {
      if q.Some? && s[0] == '\\' {
        assert s[1..] == [];
      }
    }
    hide Literals, Collapse, IsSpace, NoComments;
    LiteralsStep(q, Step(q, s).0, [s[0]], tail);
    LiteralsStep(q, Step(q, s).0, [s[0]], s[1..]);
  }

  lemma EscapeKeepsLiterals(q: Quote, s: string, inSpace: bool)
    requires |s| > 1 && q.Some? && s[0] == '\\'
    requires Literals(q, Collapse(s[2..], IsSpace(s[1]))) == Literals(q, s[2..])
    ensures Literals(q, Collapse(s, inSpace)) == Literals(q, s)
  {
    EscapeCollapses(q, s);
    var tail := Collapse(s[2..], IsSpace(s[1]));
    var c := if IsSpace(s[1]) then ' ' else s[1];
    assert Collapse(s, inSpace) == [s[0], c] + tail && s == [s[0], s[1]] + s[2..];
    SolidAppend([s[0]], [c]);
    SolidAppend([s[0]], [s[1]]);
    assert [s[0], c] == [s[0]] + [c] && [s[0], s[1]] == [s[0]] + [s[1]];
    assert Solid([c]) == Solid([s[1]]);
    hide Literals, Collapse, Solid, IsSpace;
    LiteralsStep(q, q, [s[0], c], tail);
    LiteralsStep(q, q, [s[0], s[1]], s[2..]);
  }

  /** Every literal keeps its non-space characters, escapes included. */
  lemma LiteralsSurvive(text: string)
    ensures Literals(None, Code(text)) == Literals(None, text)
  {
    RawHasNoComments(None, text);
    CollapseKeepsLiterals(None, Raw(None, text), false);
    RawKeepsLiterals(None, text);
  }

  // ---------------------------------------------------------------- what a scan keeps and drops

  /** Code without slashes and quotes is copied. */
  lemma {:induction false} PlainSurvives(plain: string, rest: string)
    requires forall c | c in plain :: c != '/' && !IsQuote(c)
    ensures Raw(None, plain + rest) == plain + Raw(None, rest)
  {
    if |plain| == 0 {
      assert plain + rest == rest;
    } else {
      var s := plain + rest;
      assert s[1..] == plain[1..] + rest && s[0] == plain[0];
      assert plain[0] in plain && forall c | c in plain[1..] :: c in plain;
      PlainSurvives(plain[1..], rest);
      assert s[..1] == [plain[0]] && plain == [plain[0]] + plain[1..];
    }
  }

  lemma RawInside(q: char, s: string)
    requires IsQuote(q) && |s| > 0 && s[0] != '\\'
    ensures Raw(Some(q), s) == [s[0]] + Raw(if s[0] == q then None else Some(q), s[1..])
  {
    assert s[..1] == [s[0]];
  }

  /** Inside a literal everything is copied up to its quote, comment marks and other quotes included. */
  lemma {:induction false} InsideLiteral(q: char, body: string, rest: string)
    requires IsQuote(q) && q != '\\' && forall c | c in body :: c != q && c != '\\'
    ensures Raw(Some(q), body + [q] + rest) == body + [q] + Raw(None, rest)
  {
    hide Raw, IsQuote;
    var s := body + [q] + rest;
    assert |body| > 0 ==> s[0] == body[0] && body[0] in body;
    RawInside(q, s);
    if |body| == 0 {
      assert s[1..] == rest;
    } else {
      assert forall c | c in body[1..] :: c in body;
      InsideLiteral(q, body[1..], rest);
      assert s[0] == body[0] && s[1..] == body[1..] + [q] + rest;
      assert body == [body[0]] + body[1..];
    }
  }

  /** A literal survives whole, and an escape keeps the character after it, whatever it is, inside the literal. */
  lemma LiteralSurvives(q: char, body: string, rest: string, escaped: char)
    requires IsQuote(q) && forall c | c in body :: c != q && c != '\\'
    ensures Raw(None, [q] + (body + [q] + rest)) == [q] + (body + [q] + Raw(None, rest))
    ensures Raw(Some(q), ['\\', escaped] + rest) == ['\\', escaped] + Raw(Some(q), rest)
  {
    InsideLiteral(q, body, rest);
    var s := [q] + (body + [q] + rest);
    assert s[1..] == body + [q] + rest && s[..1] == [q];
    var t := ['\\', escaped] + rest;
    assert t[2..] == rest && t[..2] == ['\\', escaped];
  }

  lemma {:induction false} AfterLineOf(c: string, rest: string)
    requires '\n' !in c
    ensures AfterLine(c + "\n" + rest) == rest && AfterLine(c) == ""
  {
    if |c| == 0 {
      assert (c + "\n" + rest)[1..] == rest;
    } else {
      assert (c + "\n" + rest)[1..] == c[1..] + "\n" + rest;
      assert c[0] != '\n' && forall x | x in c[1..] :: x in c;
      AfterLineOf(c[1..], rest);
    }
  }

  /** A line comment is one space, and what follows its newline, or nothing, is scanned as code. */
  lemma LineCommentGoes(c: string, rest: string)
    requires '\n' !in c
    ensures Raw(None, "//" + c + "\n" + rest) == " " + Raw(None, rest)
    ensures Raw(None, "//" + c) == " "
  {
    AfterLineOf("//" + c, rest);
    assert "//" + c + "\n" + rest == ("//" + c) + "\n" + rest;
  }

  predicate ClosesAt(s: string, i: nat) {
    i + 1 < |s| && s[i] == '*' && s[i + 1] == '/'
  }

  /** The closing mark begins nowhere in the first `n` places. */
  predicate ClosesNowhere(s: string, n: nat) {
    forall i | 0 <= i < n :: !ClosesAt(s, i)
  }

  lemma {:induction false} AfterBlockOf(c: string, rest: string)
    requires ClosesNowhere(c + "*/", |c|)
    ensures AfterBlock(c + "*/" + rest) == rest
  {
    var s := c + "*/" + rest;
    if |c| == 0 {
      assert s[2..] == rest;
    } else {
      assert s[1..] == c[1..] + "*/" + rest;
      assert s[0] == (c + "*/")[0] && s[1] == (c + "*/")[1];
      assert (c + "*/")[1..] == c[1..] + "*/";
      assert !ClosesAt(c + "*/", 0);
      assert forall i | 0 <= i < |c| - 1 :: ClosesAt(c[1..] + "*/", i) <==> ClosesAt(c + "*/", i + 1);
      AfterBlockOf(c[1..], rest);
    }
  }

  lemma {:induction false} AfterUnclosed(c: string)
    requires ClosesNowhere(c, |c|)
    ensures AfterBlock(c) == ""
  {
    if |c| >= 2 {
      assert !ClosesAt(c, 0);
      assert forall i | 0 <= i < |c| - 1 :: ClosesAt(c[1..], i) <==> ClosesAt(c, i + 1);
      AfterUnclosed(c[1..]);
    }
  }

  /** A block comment is one space up to its first closing mark; one that is never closed swallows the rest. */
  lemma BlockCommentGoes(c: string, rest: string)
    ensures ClosesNowhere(c + "*/", |c|) ==> Raw(None, "/*" + c + "*/" + rest) == " " + Raw(None, rest)
    ensures ClosesNowhere(c, |c|) ==> Raw(None, "/*" + c) == " "
  {
    var s := "/*" + c + "*/" + rest;
    assert s[2..] == c + "*/" + rest && ("/*" + c)[2..] == c;
    if ClosesNowhere(c + "*/", |c|) {
      AfterBlockOf(c, rest);
    }
    if ClosesNowhere(c, |c|) {
      AfterUnclosed(c);
    }
  }

  // ---------------------------------------------------------------- white space

  /** The white space and line terminators of ECMAScript, by code point. */
  lemma SpacesOfTheLanguage(c: char)
    ensures IsSpace(c) <==>
            c as int in {0x9, 0xA, 0xB, 0xC, 0xD, 0x20, 0xA0, 0x1680, 0x2028, 0x2029, 0x202F, 0x205F, 0x3000, 0xFEFF} ||
            0x2000 <= c as int <= 0x200A
  {
  }

  /** White space is single blanks, none of them first if `inSpace`. */
  predicate SingleBlanks(s: string, inSpace: bool) {
    (forall i | 0 <= i < |s| && IsSpace(s[i]) :: s[i] == ' ' && (i > 0 ==> !IsSpace(s[i - 1]))) &&
    (inSpace && |s| > 0 ==> !IsSpace(s[0]))
  }

  lemma SolidOfCons(c: char, s: string)
    ensures Solid([c] + s) == (if IsSpace(c) then [] else [c]) + Solid(s)
  {
    assert ([c] + s)[1..] == s;
  }

  /** A blank before no white space, or a solid character before anything fitting, keeps blanks single. */
  lemma SingleBlanksCons(c: char, s: string, inSpace: bool)
    requires SingleBlanks(s, IsSpace(c)) && (IsSpace(c) ==> c == ' ' && !inSpace)
    ensures SingleBlanks([c] + s, inSpace)
  {
    hide IsSpace;
  }

  lemma CollapseOfCons(c: char, s: string, inSpace: bool)
    ensures Collapse([c] + s, inSpace) ==
            (if !IsSpace(c) then [c] else if inSpace then [] else " ") + Collapse(s, IsSpace(c))
  {
    hide IsSpace;
    assert ([c] + s)[1..] == s;
  }

  /** Collapsing keeps every other character in order and leaves single blanks. */
  lemma {:induction false} CollapseKeepsSolid(s: string, inSpace: bool)
    ensures Solid(Collapse(s, inSpace)) == Solid(s) && SingleBlanks(Collapse(s, inSpace), inSpace)
  {
    if |s| == 0 {
    } else {
      hide IsSpace, Solid, Collapse;
      var c, tail := s[0], Collapse(s[1..], IsSpace(s[0]));
      CollapseKeepsSolid(s[1..], IsSpace(c));
      assert s == [c] + s[1..];
      CollapseOfCons(c, s[1..], inSpace);
      SolidOfCons(c, s[1..]);
      SpaceIsSpace();
      if !IsSpace(c) {
        hide SingleBlanks;
        SolidOfCons(c, tail);
        SingleBlanksCons(c, tail, inSpace);
      } else if !inSpace {
        hide SingleBlanks;
        SolidOfCons(' ', tail);
        SingleBlanksCons(' ', tail, inSpace);
      } else {
        assert [] + tail == tail;
      }
    }
  }

  lemma SpaceIsSpace()
    ensures IsSpace(' ')
  {
  }

  /** So the code keeps every character of the scan that is no white space, and its white space is single blanks. */
  lemma CodeKeepsSolid(text: string)
    ensures Solid(Code(text)) == Solid(Raw(None, text)) && SingleBlanks(Code(text), false)
  {
    CollapseKeepsSolid(Raw(None, text), false);
  }
}
