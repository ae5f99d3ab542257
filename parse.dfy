/**
 * parse_markdown, parse_markdown_with_options and batch_parse_markdown of the
 * markdown helper crate. The conversion itself (pulldown_cmark's Parser::new_ext
 * followed by html::push_html) is a foreign call, modelled as a renderer passed in.
 */
module MarkdownParse {

  /** The extension flags of pulldown_cmark::Options. */
  datatype MdOption = Tables | Footnotes | Strikethrough | Tasklists | SmartPunctuation | HeadingAttributes

  /** An Options value: the set of enabled flags (Options::empty() is {}). */
  type Options = set<MdOption>

  /** What the foreign conversion produced: the HTML, or the Debug text of its error. */
  datatype RenderOutcome = Rendered(html: string) | RenderFailed(cause: string)

  /** The foreign markdown-to-HTML conversion, as a total function of text and options. */
  type Renderer = (string, Options) -> RenderOutcome

  /** The ParseResult struct: the html, success and error fields. */
  datatype ParseResult = ParseResult(html: string, success: bool, error: string)

  const ParseErrorPrefix: string := "Parse error: "

  /** The options parse_markdown always passes. */
  const DefaultOptions: Options := {Strikethrough, Tables, Tasklists, SmartPunctuation}

  /** The shape every ParseResult built here has. */
  predicate WellFormed(r: ParseResult)
  {
    (r.success ==> r.error == "") &&
    (!r.success ==> r.html == "" && |r.error| >= |ParseErrorPrefix| && r.error[..|ParseErrorPrefix|] == ParseErrorPrefix)
  }

  /** The match on push_html's outcome that both parse functions end with. */
  function ToParseResult(outcome: RenderOutcome): (r: ParseResult)
    ensures WellFormed(r)
    ensures r.success <==> outcome.Rendered?
    ensures outcome.Rendered? ==> r.html == outcome.html
    ensures outcome.RenderFailed? ==> r.error == ParseErrorPrefix + outcome.cause
  {
    match outcome
    case Rendered(html) => ParseResult(html, true, "")
    case RenderFailed(cause) =>
      var error := ParseErrorPrefix + cause;
      assert error[..|ParseErrorPrefix|] == ParseErrorPrefix;
      ParseResult("", false, error)
  }

  /** What parse_markdown returns for a text. */
  function Parsed(markdown: string, render: Renderer): ParseResult
  {
    ToParseResult(render(markdown, DefaultOptions))
  }

  const AllOptions: Options := {Tables, Footnotes, Strikethrough, Tasklists, SmartPunctuation, HeadingAttributes}

  /** Whether one of the three switches of parse_markdown_with_options turns flag f on. */
  predicate Switched(f: MdOption, enableTables: bool, enableStrikethrough: bool, enableTasklists: bool)
  {
    match f
    case Tables => enableTables
    case Strikethrough => enableStrikethrough
    case Tasklists => enableTasklists
    case _ => false
  }

  /** The flags parse_markdown_with_options enables: exactly those switched on, among three. */
  function SelectedOptions(enableTables: bool, enableStrikethrough: bool, enableTasklists: bool): (opts: Options)
    ensures Tables in opts <==> enableTables
    ensures Strikethrough in opts <==> enableStrikethrough
    ensures Tasklists in opts <==> enableTasklists
    ensures opts <= {Tables, Strikethrough, Tasklists}
  {
    set f | f in AllOptions && Switched(f, enableTables, enableStrikethrough, enableTasklists)
  }

  /** parse_markdown (lib.rs): four insertions into an empty option set, then the conversion. */
  method ParseMarkdown(markdown: string, render: Renderer) returns (r: ParseResult)
    ensures r == Parsed(markdown, render)
    ensures WellFormed(r)
    ensures r.success <==> render(markdown, DefaultOptions).Rendered?
  {
    var options: Options := {};
    options := options + {Strikethrough};
    options := options + {Tables};
    options := options + {Tasklists};
    options := options + {SmartPunctuation};
    assert options == DefaultOptions;
    var htmlOutput := "";
    match render(markdown, options) {
      case Rendered(html) =>
        htmlOutput := htmlOutput + html;
        r := ParseResult(htmlOutput, true, "");
      case RenderFailed(cause) =>
        r := ParseResult("", false, ParseErrorPrefix + cause);
    }
  }

  /** parse_markdown_with_options (lib.rs): one conditional insertion per flag, then the conversion. */
  method ParseMarkdownWithOptions(markdown: string, enableTables: bool, enableStrikethrough: bool,
                                  enableTasklists: bool, render: Renderer)
    returns (r: ParseResult)
    ensures r == ToParseResult(render(markdown, SelectedOptions(enableTables, enableStrikethrough, enableTasklists)))
    ensures WellFormed(r)
  {
    var options: Options := {};
    if enableTables {
      options := options + {Tables};
    }
    if enableStrikethrough {
      options := options + {Strikethrough};
    }
    if enableTasklists {
      options := options + {Tasklists};
    }
    assert options == SelectedOptions(enableTables, enableStrikethrough, enableTasklists);
    var htmlOutput := "";
    match render(markdown, options) {
      case Rendered(html) =>
        htmlOutput := htmlOutput + html;
        r := ParseResult(htmlOutput, true, "");
      case RenderFailed(cause) =>
        r := ParseResult("", false, ParseErrorPrefix + cause);
    }
  }

  /** batch_parse_markdown (lib.rs), before serialisation: parse_markdown mapped over the inputs. */
  function BatchParse(markdowns: seq<string>, render: Renderer): (results: seq<ParseResult>)
    ensures |results| == |markdowns|
    ensures forall i :: 0 <= i < |markdowns| ==> results[i] == Parsed(markdowns[i], render)
  {
    if markdowns == [] then []
    else [Parsed(markdowns[0], render)] + BatchParse(markdowns[1..], render)
  }

  /** Every element of a batch has the ParseResult shape. */
  lemma BatchWellFormed(markdowns: seq<string>, render: Renderer)
    ensures forall r :: r in BatchParse(markdowns, render) ==> WellFormed(r)
  {
  }

  /** Batching distributes over concatenation of the inputs. */
  lemma BatchAppend(a: seq<string>, b: seq<string>, render: Renderer)
    ensures BatchParse(a + b, render) == BatchParse(a, render) + BatchParse(b, render)
  {
  }

  /**
   * parse_markdown is not parse_markdown_with_options with every flag on: the
   * former also enables smart punctuation, the latter never does.
   */
  lemma DefaultIsAllSelectedPlusSmartPunctuation()
    ensures DefaultOptions == SelectedOptions(true, true, true) + {SmartPunctuation}
    ensures forall t, s, k :: SmartPunctuation !in SelectedOptions(t, s, k)
  {
  }
}
