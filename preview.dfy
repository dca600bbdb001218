/** The text shown inside a card of the notes explorer (`loadFilePreview` in
    main.ts): the first few non-blank lines of the note, joined, stripped of
    markdown punctuation and cut to a fixed length. */
module Preview {
  import opened Wrappers
  import opened Seqs
  import opened Text

  /** The preview keeps at most this many characters, */
  const PreviewLimit: nat := 150
  /** taken from at most this many non-blank lines. */
  const LineLimit: nat := 3
  /** Shown when nothing is left of the note. */
  const EmptyNote: string := "Empty note"
  /** Shown when the note cannot be read. */
  const Unreadable: string := "Unable to load preview"

  /** The characters of the `[#*_\[\]()]` class the preview removes. */
  predicate IsMarkup(c: char) {
    c in "#*_[]()"
  }

  /** `filter(line => line.trim().length > 0)`: the lines that are not blank
      (`TrimEmptyIffBlank` shows the two tests agree), in their order and
      untrimmed. */
  function NonBlankLines(lines: seq<string>): (kept: seq<string>)
    ensures |kept| <= |lines|
    ensures forall k :: 0 <= k < |kept| ==> !IsBlank(kept[k])
  {
    if lines == [] then []
    else
      var rest := NonBlankLines(lines[1..]);
      if !IsBlank(lines[0]) then [lines[0]] + rest else rest
  }

  /** No character of `s` is a markup character. */
  predicate MarkupFree(s: string) {
    forall k :: 0 <= k < |s| ==> !IsMarkup(s[k])
  }

  /** A line survives the filter exactly when it is one of the lines and is
      not blank. */
  lemma {:induction false} NonBlankLinesMembers(lines: seq<string>, line: string)
    ensures line in NonBlankLines(lines) <==> line in lines && !IsBlank(line)
  {
    if lines != [] {
      NonBlankLinesMembers(lines[1..], line);
      assert lines == [lines[0]] + lines[1..];
    }
  }

  /** `replace(/[#*_\[\]()]/g, '')`: drops every markup character. */
  function RemoveMarkup(s: string): (r: string)
    ensures |r| <= |s| && MarkupFree(r)
    ensures |s| == 1 ==> r == if IsMarkup(s[0]) then [] else s
  {
    if s == [] then []
    else (if IsMarkup(s[0]) then [] else [s[0]]) + RemoveMarkup(s[1..])
  }

  /** Removing markup keeps exactly the characters that are not markup. */
  lemma {:induction false} RemoveMarkupKeepsText(s: string, c: char)
    ensures c in RemoveMarkup(s) <==> c in s && !IsMarkup(c)
  {
    if s != [] {
      RemoveMarkupKeepsText(s[1..], c);
      assert s == [s[0]] + s[1..];
    }
  }

  /** Markup is removed piece by piece: the kept characters stay in their
      order and keep their number. */
  lemma {:induction false} RemoveMarkupAppend(a: string, b: string)
    ensures RemoveMarkup(a + b) == RemoveMarkup(a) + RemoveMarkup(b)
    decreases |a|
  {
    if a == [] {
      assert a + b == b;
    } else {
      assert (a + b)[0] == a[0];
      assert (a + b)[1..] == a[1..] + b;
      RemoveMarkupAppend(a[1..], b);
      Regroup(if IsMarkup(a[0]) then [] else [a[0]], RemoveMarkup(a[1..]), RemoveMarkup(b));
    }
  }

  /** Text with no markup character passes through unchanged. */
  lemma {:induction false} RemoveMarkupOfClean(s: string)
    requires MarkupFree(s)
    ensures RemoveMarkup(s) == s
  {
    if s != [] {
      RemoveMarkupOfClean(s[1..]);
    }
  }

  /** The lines the preview is made of: the first three non-blank lines. */
  function PreviewLines(content: string): (lines: seq<string>)
    ensures |lines| <= LineLimit
    ensures forall k :: 0 <= k < |lines| ==> !IsBlank(lines[k])
    ensures lines <= NonBlankLines(Split(content, '\n'))
    ensures |lines| == if |NonBlankLines(Split(content, '\n'))| < LineLimit
                       then |NonBlankLines(Split(content, '\n'))| else LineLimit
  {
    var kept := NonBlankLines(Split(content, '\n'));
    if |kept| <= LineLimit then kept else kept[..LineLimit]
  }

  /** Those lines joined with single spaces, without markup. */
  function StrippedPreview(content: string): string {
    RemoveMarkup(Join(PreviewLines(content), " "))
  }

  /** `preview || 'Empty note'` where `preview` is the stripped text cut to 150
      characters: never empty, never longer than the limit, never holding a
      markup character, and otherwise the start of the stripped text. */
  function PreviewText(content: string): (text: string)
    ensures 0 < |text| <= PreviewLimit
    ensures MarkupFree(text)
    ensures StrippedPreview(content) == [] ==> text == EmptyNote
    ensures StrippedPreview(content) != [] ==>
              && text <= StrippedPreview(content)
              && |text| == if |StrippedPreview(content)| < PreviewLimit then |StrippedPreview(content)| else PreviewLimit
  {
    var stripped := StrippedPreview(content);
    var cut := if |stripped| <= PreviewLimit then stripped else stripped[..PreviewLimit];
    if cut == [] then EmptyNote else cut
  }

  /** `loadFilePreview`: the preview of the note, or the failure text when
      reading it throws. */
  function LoadFilePreview(read: Outcome<string>): (text: string)
    ensures read.Threw? ==> text == Unreadable
    ensures read.Returned? ==> text == PreviewText(read.value)
    ensures 0 < |text| <= PreviewLimit
  {
    match read
    case Threw => Unreadable
    case Returned(content) => PreviewText(content)
  }

  /** Splitting text that starts with a line: that line, then the rest's lines. */
  lemma SplitFirstLine(line: string, rest: string)
    requires '\n' !in line
    ensures Split(line + "\n" + rest, '\n') == [line] + Split(rest, '\n')
  {
    var s := line + "\n" + rest;
    assert s[..|line|] == line && s[|line|] == '\n';
    assert FirstIndex(s, '\n') == |line|;
    assert s[|line| + 1..] == rest;
  }

  /** A note that is one short clean line is previewed as that very line,
      leading and trailing spaces included. */
  lemma PreviewOfPlainLine(line: string)
    requires '\n' !in line && !IsBlank(line) && |line| <= PreviewLimit
    requires MarkupFree(line)
    ensures PreviewText(line) == line
  {
    assert NonBlankLines([line]) == [line];
    RemoveMarkupOfClean(line);
  }

  /** Filtering a line followed by more lines: the line is kept exactly when it
      is not blank. */
  lemma NonBlankLinesCons(line: string, rest: seq<string>)
    ensures NonBlankLines([line] + rest) == (if IsBlank(line) then [] else [line]) + NonBlankLines(rest)
  {
    assert ([line] + rest)[1..] == rest;
  }

  /** A blank line at the top of a note does not change its preview. */
  lemma LeadingBlankLineIgnored(blank: string, rest: string)
    requires '\n' !in blank && IsBlank(blank)
    ensures PreviewText(blank + "\n" + rest) == PreviewText(rest)
  {
    SplitFirstLine(blank, rest);
    NonBlankLinesCons(blank, Split(rest, '\n'));
    assert PreviewLines(blank + "\n" + rest) == PreviewLines(rest);
  }

  /** Regrouping two lines in front of the rest of a note. */
  lemma RegroupLines(l1: string, l2: string, rest: string)
    ensures l1 + "\n" + l2 + "\n" + rest == l1 + "\n" + (l2 + "\n" + rest)
  {
  }

  /** The lines of a note that starts with two lines. */
  lemma SplitTwoLines(l1: string, l2: string, rest: string)
    requires '\n' !in l1 && '\n' !in l2
    ensures Split(l1 + "\n" + l2 + "\n" + rest, '\n') == [l1, l2] + Split(rest, '\n')
  {
    var tail := l2 + "\n" + rest;
    SplitFirstLine(l2, rest);
    SplitFirstLine(l1, tail);
    RegroupLines(l1, l2, rest);
    assert [l1] + ([l2] + Split(rest, '\n')) == [l1, l2] + Split(rest, '\n');
  }

  /** The lines of a note that starts with three lines. */
  lemma SplitThreeLines(l1: string, l2: string, l3: string, rest: string)
    requires '\n' !in l1 && '\n' !in l2 && '\n' !in l3
    ensures Split(l1 + "\n" + l2 + "\n" + l3 + "\n" + rest, '\n') == [l1, l2, l3] + Split(rest, '\n')
    ensures Split(l1 + "\n" + l2 + "\n" + l3, '\n') == [l1, l2, l3]
  {
    var tail := l3 + "\n" + rest;
    SplitFirstLine(l3, rest);
    SplitTwoLines(l1, l2, tail);
    RegroupLines(l1 + "\n" + l2, l3, rest);
    assert [l1, l2] + ([l3] + Split(rest, '\n')) == [l1, l2, l3] + Split(rest, '\n');
    SplitTwoLines(l1, l2, l3);
    assert Split(l3, '\n') == [l3];
  }

  /** Three non-blank lines in front survive the filter, in front. */
  lemma FirstThreeKept(l1: string, l2: string, l3: string, tail: seq<string>)
    requires !IsBlank(l1) && !IsBlank(l2) && !IsBlank(l3)
    ensures NonBlankLines([l1, l2, l3] + tail) == [l1, l2, l3] + NonBlankLines(tail)
  {
    NonBlankLinesCons(l3, tail);
    NonBlankLinesCons(l2, [l3] + tail);
    NonBlankLinesCons(l1, [l2] + ([l3] + tail));
    assert [l1, l2, l3] + tail == [l1] + ([l2] + ([l3] + tail));
  }

  /** Once three non-blank lines have been read, the rest of the note does not
      matter. */
  lemma ThreeLinesSuffice(l1: string, l2: string, l3: string, rest: string)
    requires '\n' !in l1 && '\n' !in l2 && '\n' !in l3
    requires !IsBlank(l1) && !IsBlank(l2) && !IsBlank(l3)
    ensures PreviewText(l1 + "\n" + l2 + "\n" + l3 + "\n" + rest) == PreviewText(l1 + "\n" + l2 + "\n" + l3)
  {
    SplitThreeLines(l1, l2, l3, rest);
    FirstThreeKept(l1, l2, l3, Split(rest, '\n'));
    FirstThreeKept(l1, l2, l3, []);
    assert ([l1, l2, l3] + NonBlankLines(Split(rest, '\n')))[..LineLimit] == [l1, l2, l3];
    assert [l1, l2, l3] + [] == [l1, l2, l3];
    assert PreviewLines(l1 + "\n" + l2 + "\n" + l3 + "\n" + rest) == [l1, l2, l3];
    assert PreviewLines(l1 + "\n" + l2 + "\n" + l3) == [l1, l2, l3];
  }
}
