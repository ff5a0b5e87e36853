/** The plain-text and Markdown parser (parsers/text_parser.py): the decoded
    text, its lines, and the YAML frontmatter of a Markdown file. */
module TextParser {
  import opened Wrappers
  import opened Strings

  /** What `yaml.safe_load` gives for the frontmatter: a mapping (its values
      are kept as strings here) or any other YAML value. */
  datatype YamlValue = Mapping(entries: map<string, string>) | OtherValue

  /** The outcome of the YAML step: a value, an exception from the loader,
      or the ImportError of a missing yaml module. */
  datatype YamlOutcome = Loaded(value: YamlValue) | LoadRaised | NotInstalled

  /** `(metadata, content)` as `_extract_frontmatter` returns it. */
  datatype Frontmatter = Frontmatter(metadata: map<string, string>, content: string)

  /** The dictionary that the parser returns. */
  datatype TextParse = TextParse(text: string, lines: seq<string>, metadata: map<string, string>,
                                 source: string, error: Option<string>)

  const Fence := "---"

  /** The key under which the raw frontmatter is kept without a yaml module. */
  const RawKey := "raw_frontmatter"

  /** `_extract_frontmatter`: when `text` opens with "---" and has a second
      "---" at or after index 3, the stripped text between them goes to the
      YAML loader and the stripped rest becomes the content; in every other
      case, and when the loader raises, the text comes back unchanged with
      no metadata. Content that changed lost at least both fences. */
  function ExtractFrontmatter(text: string, loadYaml: string -> YamlOutcome): (r: Frontmatter)
    ensures r.content == text || |r.content| + 6 <= |text|
    ensures r.content != text || r.metadata != map[] ==> StartsWith(text, Fence) && Find(text, Fence, 3) != -1
  {
    if !StartsWith(text, Fence) then Frontmatter(map[], text)
    else
      var end := Find(text, Fence, 3);
      if end == -1 then Frontmatter(map[], text)
      else
        var front := Strip(text[3..end]);
        var content := Strip(text[end + 3..]);
        match loadYaml(front)
        case LoadRaised => Frontmatter(map[], text)
        case NotInstalled => Frontmatter(map[RawKey := front], content)
        case Loaded(value) => Frontmatter(if value.Mapping? then value.entries else map[], content)
  }

  /** A frontmatter block that the closing fence cannot be confused with:
      no "---" inside it, and no '-' at its end (which would run into the
      fence after it). YAML dates and list items are such blocks. */
  predicate PlainBlock(front: string) {
    && (forall i | 0 <= i < |front| :: !OccursAt(front, Fence, i))
    && (front == [] || front[|front| - 1] != '-')
  }

  /** A document written as "---", a plain frontmatter block, "---" and a
      body is split back into them: the loader sees the stripped block and
      the content is the stripped body. */
  lemma FrontmatterRoundTrip(front: string, body: string, loadYaml: string -> YamlOutcome)
    requires PlainBlock(front)
    requires !loadYaml(Strip(front)).LoadRaised?
    ensures ExtractFrontmatter(Fence + front + Fence + body, loadYaml).content == Strip(body)
    ensures loadYaml(Strip(front)).Loaded? && loadYaml(Strip(front)).value.Mapping? ==>
              ExtractFrontmatter(Fence + front + Fence + body, loadYaml).metadata
                == loadYaml(Strip(front)).value.entries
    ensures loadYaml(Strip(front)).NotInstalled? ==>
              ExtractFrontmatter(Fence + front + Fence + body, loadYaml).metadata == map[RawKey := Strip(front)]
  {
    FencesFound(front, body);
  }

  /** The second fence of such a document is the one right after the
      block: no "---" starts inside the block, nor across its end. */
  lemma FencesFound(front: string, body: string)
    requires PlainBlock(front)
    ensures StartsWith(Fence + front + Fence + body, Fence)
    ensures Find(Fence + front + Fence + body, Fence, 3) == 3 + |front|
    ensures (Fence + front + Fence + body)[3..3 + |front|] == front
    ensures (Fence + front + Fence + body)[3 + |front| + 3..] == body
  {
    var text := Fence + front + Fence + body;
    var end := 3 + |front|;
    assert text[..3] == Fence;
    assert OccursAt(text, Fence, end) by {
      assert text[end..end + 3] == Fence;
    }
    forall i | 3 <= i < end ensures !OccursAt(text, Fence, i) {
      if i + 3 <= end {
        assert text[i..i + 3] == front[i - 3..i];
        assert !OccursAt(front, Fence, i - 3);
      } else {
        assert text[end - 1] == front[|front| - 1];
        assert text[i..i + 3][end - 1 - i] == text[end - 1];
      }
    }
    assert text[3..end] == front;
    assert text[end + 3..] == body;
  }

  /** `parse_text`: `content` is the decoded text of the file, or the message
      of the error raised while reading it. The lines are those of the text
      as read; frontmatter is taken off only for a ".md" suffix (in any case)
      and a text that opens with "---". */
  function ParseText(name: string, content: Result<string, string>, loadYaml: string -> YamlOutcome): (r: TextParse)
    ensures r.source == name
    ensures content.Failure? ==> r == TextParse("", [], map[], name, Some(content.error))
    ensures content.Success? ==> r.error == None && r.lines == SplitLines(content.value)
    ensures content.Success? && (Lower(Suffix(name)) != ".md" || !StartsWith(content.value, Fence)) ==>
              r.text == content.value && r.metadata == map[]
    ensures content.Success? ==> r.text == content.value || |r.text| + 6 <= |content.value|
  {
    if content.Failure? then TextParse("", [], map[], name, Some(content.error))
    else
      var text := content.value;
      var lines := SplitLines(text);
      if Lower(Suffix(name)) == ".md" && StartsWith(text, Fence) then
        var extracted := ExtractFrontmatter(text, loadYaml);
        TextParse(extracted.content, lines, extracted.metadata, name, None)
      else
        TextParse(text, lines, map[], name, None)
  }

  /** A Markdown file written as "---", a plain frontmatter block, "---"
      and a body: its text is the stripped body, while its lines are still
      those of the whole file, frontmatter and fences included. */
  lemma MarkdownFrontmatterRemoved(name: string, front: string, body: string,
                                   loadYaml: string -> YamlOutcome)
    requires Lower(Suffix(name)) == ".md"
    requires PlainBlock(front)
    requires !loadYaml(Strip(front)).LoadRaised?
    ensures ParseText(name, Success(Fence + front + Fence + body), loadYaml).text == Strip(body)
    ensures ParseText(name, Success(Fence + front + Fence + body), loadYaml).lines
              == SplitLines(Fence + front + Fence + body)
  {
    var text := Fence + front + Fence + body;
    assert text[..3] == Fence;
    FrontmatterRoundTrip(front, body, loadYaml);
  }
}
