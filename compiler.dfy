/**
 * The response compiler, `compileResponse` (src/App.tsx:61-82): split the
 * model's reply on line feeds, drop blank lines, resolve `**` emphasis in
 * each line, classify each line as a list item or a paragraph, and wrap the
 * concatenation between an opening `<ul>` and a closing `</ul>`.
 *
 * As in the code, a line is classified by its RAW text (before emphasis is
 * rewritten), numbered items keep their `1.` prefix, and a bullet loses one
 * leading `*` or `-` only if the rewritten line still starts with one.
 */
module Compiler {
  import opened Text
  import opened Emphasis

  /** One compiled line: the typed fragment before it is flattened to markup. */
  datatype Block = ListItem(body: string) | Paragraph(body: string)

  /** The raw line matches `^\d+\.`. */
  predicate IsOrdered(line: string)
  {
    var n := LeadingDigits(line);
    0 < n < |line| && line[n] == '.'
  }

  /** The test above is the regular expression's: some non-empty run of
      digits at the start is followed by a dot. */
  lemma OrderedIff(line: string)
    ensures IsOrdered(line) <==>
      exists k :: 0 < k < |line| && line[k] == '.' && forall i :: 0 <= i < k ==> IsDigit(line[i])
  {
    var n := LeadingDigits(line);
    if k :| 0 < k < |line| && line[k] == '.' && forall i :: 0 <= i < k ==> IsDigit(line[i]) {
      if n != k {
        assert false;
      }
    }
  }

  /** The raw line starts with `*` or `-`. */
  predicate IsBulleted(line: string)
  {
    |line| > 0 && (line[0] == '*' || line[0] == '-')
  }

  /** Removes one list marker, `*` or `-`, from the start of a text, if
      there is one. */
  function StripMarker(s: string): string
  {
    if IsBulleted(s) then s[1..] else s
  }

  /** The body of the `lines.map` callback, as a typed fragment. */
  function Classify(line: string): Block
  {
    var emphasized := Emphasize(line);
    if IsOrdered(line) then ListItem(Trim(emphasized))
    else if IsBulleted(line) then ListItem(Trim(StripMarker(emphasized)))
    else Paragraph(Trim(emphasized))
  }

  /** A fragment as markup: `<li>…</li>` or `<p>…</p>`. */
  function Render(b: Block): string
  {
    match b
    case ListItem(body) => "<li>" + body + "</li>"
    case Paragraph(body) => "<p>" + body + "</p>"
  }

  /** The blank-line filter: keeps the lines whose trimmed text is
      non-empty, and only those, in their order. */
  function NonBlank(lines: seq<string>): (r: seq<string>)
    ensures |r| <= |lines|
    ensures forall x :: x in r <==> x in lines && !IsBlank(x)
    decreases |lines|
  {
    if lines == [] then []
    else if Trim(lines[0]) != "" then [lines[0]] + NonBlank(lines[1..])
    else NonBlank(lines[1..])
  }

  /** The `lines.map` step: one fragment per kept line, in line order. */
  function ClassifyAll(lines: seq<string>): (r: seq<Block>)
    ensures |r| == |lines|
    ensures forall i :: 0 <= i < |lines| ==> r[i] == Classify(lines[i])
    decreases |lines|
  {
    if lines == [] then [] else [Classify(lines[0])] + ClassifyAll(lines[1..])
  }

  /** The fragments' markup, concatenated with no separator. */
  function RenderAll(blocks: seq<Block>): (r: string)
    ensures |r| >= 7 * |blocks|
    decreases |blocks|
  {
    if blocks == [] then [] else Render(blocks[0]) + RenderAll(blocks[1..])
  }

  /** The fragments of a reply, before they are flattened. */
  function Blocks(raw: string): seq<Block>
  {
    ClassifyAll(NonBlank(Lines(raw)))
  }

  /** What goes between `<ul>` and `</ul>`. */
  function Body(raw: string): string
  {
    RenderAll(Blocks(raw))
  }

  /** Markup that starts with `<ul>` and ends with `</ul>`. Nothing is
      escaped, so a `</ul>` inside a line can still close the list early. */
  predicate IsContainer(content: string)
  {
    |content| >= 9 && content[..4] == "<ul>" && content[|content| - 5..] == "</ul>"
  }

  /** `compileResponse`: the fragments between an opening `<ul>` and a
      closing `</ul>`. */
  function Compile(raw: string): (r: string)
    ensures IsContainer(r)
  {
    "<ul>" + Body(raw) + "</ul>"
  }

  /** Filtering keeps the order: it distributes over concatenation. */
  lemma {:induction false} NonBlankAppend(a: seq<string>, b: seq<string>)
    ensures NonBlank(a + b) == NonBlank(a) + NonBlank(b)
    decreases |a|
  {
    if a == [] {
      assert a + b == b;
    } else {
      assert (a + b)[0] == a[0] && (a + b)[1..] == a[1..] + b;
      NonBlankAppend(a[1..], b);
    }
  }

  lemma {:induction false} ClassifyAllAppend(a: seq<string>, b: seq<string>)
    ensures ClassifyAll(a + b) == ClassifyAll(a) + ClassifyAll(b)
  {
  }

  lemma {:induction false} RenderAllAppend(a: seq<Block>, b: seq<Block>)
    ensures RenderAll(a + b) == RenderAll(a) + RenderAll(b)
    decreases |a|
  {
    if a == [] {
      assert a + b == b;
    } else {
      assert (a + b)[0] == a[0] && (a + b)[1..] == a[1..] + b;
      RenderAllAppend(a[1..], b);
    }
  }

  /** The compiler works line by line: the markup for two texts joined by a
      line feed is the markup of the first followed by that of the second. */
  lemma CompileLineLocal(a: string, b: string)
    ensures Body(a + "\n" + b) == Body(a) + Body(b)
  {
    LinesAppend(a, b);
    NonBlankAppend(Lines(a), Lines(b));
    ClassifyAllAppend(NonBlank(Lines(a)), NonBlank(Lines(b)));
    RenderAllAppend(Blocks(a), Blocks(b));
  }

  /** A single line contributes nothing when blank, else exactly its fragment. */
  lemma CompileSingleLine(line: string)
    requires '\n' !in line
    ensures Body(line) == if IsBlank(line) then "" else Render(Classify(line))
  {
    LinesOfSingle(line);
    assert Lines(line)[1..] == [];
    if !IsBlank(line) {
      assert Blocks(line) == [Classify(line)];
      assert RenderAll(Blocks(line)) == Render(Classify(line)) + RenderAll([]);
    }
  }

  /** Filtering leaves nothing exactly when every line is blank. */
  lemma NonBlankEmptyIff(lines: seq<string>)
    ensures NonBlank(lines) == [] <==> forall i :: 0 <= i < |lines| ==> IsBlank(lines[i])
  {
    var kept := NonBlank(lines);
    if kept != [] {
      assert kept[0] in kept;
    } else {
      forall i | 0 <= i < |lines| ensures IsBlank(lines[i]) {
        assert lines[i] in lines;
      }
    }
  }

  /** The container is empty exactly when no line survives the filter. */
  lemma CompileEmptyWhenNothingKept(raw: string)
    ensures Compile(raw) == "<ul></ul>" <==> NonBlank(Lines(raw)) == []
  {
    var kept := NonBlank(Lines(raw));
    EmptyContainer(Body(raw));
    assert |ClassifyAll(kept)| == |kept|;
    RenderAllEmpty(ClassifyAll(kept));
  }

  lemma EmptyContainer(x: string)
    ensures "<ul>" + x + "</ul>" == "<ul></ul>" <==> x == []
  {
    if x != [] {
      assert |"<ul>" + x + "</ul>"| > 9;
    }
  }

  lemma RenderAllEmpty(blocks: seq<Block>)
    ensures RenderAll(blocks) == [] <==> blocks == []
  {
  }

  /** The container is empty exactly when every line of the reply is blank
      (which includes the empty reply). */
  lemma CompileEmptyIff(raw: string)
    ensures Compile(raw) == "<ul></ul>" <==> forall i :: 0 <= i < |Lines(raw)| ==> IsBlank(Lines(raw)[i])
  {
    NonBlankEmptyIff(Lines(raw));
    CompileEmptyWhenNothingKept(raw);
  }

  /** A line of digits then a dot, as `^\d+\.` matches it, takes the
      ordered branch: the whole rewritten line is trimmed. */
  lemma ClassifyOrdered(line: string, k: nat)
    requires 0 < k < |line| && line[k] == '.'
    requires forall i :: 0 <= i < k ==> IsDigit(line[i])
    ensures Classify(line) == ListItem(Trim(Emphasize(line)))
  {
    NumberedIsOrdered(line, k);
  }

  /** The bullet branch of the callback: a raw `*` or `-` at the start. */
  lemma ClassifyBullet(line: string)
    requires IsBulleted(line)
    ensures Classify(line) == ListItem(Trim(StripMarker(Emphasize(line))))
  {
    assert LeadingDigits(line) == 0;
  }

  /** Trimming a text that starts with a non-space only trims its end. */
  lemma TrimOfVisibleStart(s: string)
    requires s != [] && !IsSpace(s[0])
    ensures Trim(s) == TrimEnd(s)
  {
    assert TrimStart(s) == s;
  }

  /** Trimming a text whose last character is not a space leaves its end. */
  lemma TrimEndOfVisibleEnd(s: string)
    requires s != [] && !IsSpace(s[|s| - 1])
    ensures TrimEnd(s) == s
  {
  }

  /** A numbered line keeps its number and dot; only the text after the dot
      has its emphasis rewritten and its trailing whitespace trimmed. */
  lemma OrderedItem(line: string, k: nat)
    requires 0 < k < |line| && line[k] == '.'
    requires forall i :: 0 <= i < k ==> IsDigit(line[i])
    ensures Classify(line) == ListItem(line[..k + 1] + TrimEnd(Emphasize(line[k + 1..])))
  {
    var p := line[..k + 1];
    var rest := line[k + 1..];
    ClassifyOrdered(line, k);
    NumberInert(line, k);
    assert line == p + rest;
    EmphasizePrefix(p, rest);
    TrimOfFramed(p, Emphasize(rest));
  }

  /** `^\d+\.` matches a line made of digits and then a dot. */
  lemma NumberedIsOrdered(line: string, k: nat)
    requires 0 < k < |line| && line[k] == '.'
    requires forall i :: 0 <= i < k ==> IsDigit(line[i])
    ensures IsOrdered(line)
  {
    LeadingDigitsOfPrefix(line[..k], line[k..]);
    assert line[..k] + line[k..] == line;
  }

  /** A number and its dot hold no `*`, so the emphasis scan copies them. */
  lemma NumberInert(line: string, k: nat)
    requires 0 < k < |line| && line[k] == '.'
    requires forall i :: 0 <= i < k ==> IsDigit(line[i])
    ensures Inert(line[..k + 1])
  {
    var p := line[..k + 1];
    forall i | 0 <= i < |p| ensures !PairAt(p, i) {
      assert p[i] != '*';
    }
  }

  /** Trimming a text that opens with a visible prefix trims only behind it. */
  lemma TrimOfFramed(p: string, x: string)
    requires p != [] && !IsSpace(p[0]) && !IsSpace(p[|p| - 1])
    ensures Trim(p + x) == p + TrimEnd(x)
  {
    TrimOfVisibleStart(p + x);
    TrimEndAfter(p, x);
  }

  /** A bullet line loses its one marker; the rest is rewritten and trimmed. */
  lemma BulletItem(m: char, rest: string)
    requires m == '*' || m == '-'
    requires m == '-' || rest == [] || rest[0] != '*'
    ensures Classify([m] + rest) == ListItem(Trim(Emphasize(rest)))
  {
    var line := [m] + rest;
    ClassifyBullet(line);
    assert !PairAt(line, 0);
    assert line[1..] == rest;
    assert Emphasize(line) == [m] + Emphasize(rest);
  }

  /** A line opening with an unclosed `**` loses one `*` only. */
  lemma UnclosedBoldBullet(t: string)
    requires NoPair(t) && (t == [] || t[0] != '*')
    ensures Classify("**" + t) == ListItem(Trim("*" + t))
  {
    var line := "**" + t;
    assert Classify(line) == ListItem(Trim(StripMarker(Emphasize(line)))) by {
      ClassifyBullet(line);
    }
    assert Emphasize(line) == line by {
      LoneDelimiter(t);
    }
    assert StripMarker(line) == "*" + t by {
      assert IsBulleted(line);
      assert line[1..] == "*" + t;
    }
  }

  /** A line opening with emphasis is a list item, because the raw line starts
      with `*`; nothing is stripped since the rewritten line starts with `<`. */
  lemma LeadingEmphasisIsListItem(b: string, r: string)
    requires Inert(b) && Clear(b, 0, |b|)
    ensures Classify("**" + b + "**" + r)
         == ListItem(TrimEnd("<strong>" + b + "</strong>" + Emphasize(r)))
  {
    var line := "**" + b + "**" + r;
    var e := "<strong>" + b + "</strong>" + Emphasize(r);
    assert Classify(line) == ListItem(Trim(StripMarker(Emphasize(line)))) by {
      assert line[0] == '*';
      ClassifyBullet(line);
    }
    assert Emphasize(line) == e by {
      EmphasizeMatchFirst(b, r);
    }
    assert Trim(StripMarker(e)) == TrimEnd(e) by {
      assert e[0] == '<';
      assert StripMarker(e) == e;
      TrimOfVisibleStart(e);
    }
  }

  /** A line that does not start with a list marker and that `^\d+\.` does
      not match is a paragraph. This covers plain text, indented lines
      whatever marker follows the indent, the empty line, and lines led by
      digits without a dot after them, such as `12 apples` or `1) x`. */
  lemma UnmarkedIsParagraph(line: string)
    requires line == [] || (line[0] != '*' && line[0] != '-')
    requires !exists k :: 0 < k < |line| && line[k] == '.' && forall i :: 0 <= i < k ==> IsDigit(line[i])
    ensures Classify(line) == Paragraph(Trim(Emphasize(line)))
  {
    OrderedIff(line);
  }

  /** A line that is one emphasised span is a list item holding just the span. */
  lemma BoldLine(b: string)
    requires Inert(b) && Clear(b, 0, |b|)
    ensures Classify("**" + b + "**") == ListItem("<strong>" + b + "</strong>")
  {
    var e := "<strong>" + b + "</strong>";
    assert Classify("**" + b + "**") == ListItem(TrimEnd(e + Emphasize(""))) by {
      EmptyTail("**" + b + "**");
      LeadingEmphasisIsListItem(b, "");
    }
    assert TrimEnd(e + Emphasize("")) == e by {
      EmptyTail(e);
      assert e[|e| - 1] == '>';
      TrimEndOfVisibleEnd(e);
    }
  }

  lemma EmptyTail(s: string)
    ensures s + Emphasize("") == s && s + "" == s
  {
  }

  /** A reply of one line that is a list item is that item alone. */
  lemma SingleItemBody(line: string, x: string)
    requires '\n' !in line && !IsBlank(line) && Classify(line) == ListItem(x)
    ensures Body(line) == "<li>" + x + "</li>"
  {
    CompileSingleLine(line);
  }

  /** An emphasised span is one visible line. */
  lemma BoldLineShape(b: string)
    requires Clear(b, 0, |b|)
    ensures '\n' !in "**" + b + "**" && !IsBlank("**" + b + "**")
  {
    var line := "**" + b + "**";
    forall k | 0 <= k < |line| ensures line[k] != '\n' {
      if 2 <= k < 2 + |b| {
        assert line[k] == b[k - 2];
      }
    }
    assert !IsSpace(line[0]);
  }

  /** A reply that is one emphasised line becomes a list item, not a
      paragraph: `**Hello!**` compiles to
      `<ul><li><strong>Hello!</strong></li></ul>`. */
  lemma BoldReply(b: string)
    requires Inert(b) && Clear(b, 0, |b|)
    ensures Compile("**" + b + "**") == "<ul><li><strong>" + b + "</strong></li></ul>"
  {
    var line := "**" + b + "**";
    var e := "<strong>" + b + "</strong>";
    BoldLineShape(b);
    BoldLine(b);
    SingleItemBody(line, e);
    StrongItemMarkup(b);
  }

  lemma StrongItemMarkup(b: string)
    ensures "<ul>" + ("<li>" + ("<strong>" + b + "</strong>") + "</li>") + "</ul>"
         == "<ul><li><strong>" + b + "</strong></li></ul>"
  {
  }
}
