/**
 * The page the application renders, as a value of the model, and what the
 * builder makes of it.
 */
module ExamplePage {
  import opened Wrappers
  import opened JsValues
  import opened PageBuilder

  /** The `onClick` handler of the primary call to action, an opaque function. */
  const PrimaryClick := Object(0)

  function Ref(kind: string, props: Props): ComponentRef {
    [(kind, Some(props))]
  }

  const HeroTitle: Props := [("children", Str("Hello there")), ("className", Str("text-6xl")), ("as", Str("h1"))]
  const HeroText: Props := [("children", Str("Hello there")), ("className", Str("text-lg"))]
  const PrimaryCta: Props := [("children", Str("Primary Call to action")), ("flavor", Str("primary")), ("onClick", PrimaryClick)]
  const SecondaryCta: Props := [("children", Str("Secondary Call to action")), ("flavor", Str("secondary"))]

  const HeroBlock := Block(Some("flex justify-center flex-col text-center text-white p-5"),
                           Some([Ref("Text", HeroTitle), Ref("Text", HeroText)]))
  const CtaBlock := Block(Some("flex items-center justify-center gap-3 text-white p-5"),
                          Some([Ref("Button", PrimaryCta), Ref("Button", SecondaryCta)]))
  const TileBlock := Block(Some("w-full flex justify-center flex-col items-center"), Some([
                       Ref("Text", [("children", Str("Another section tile")), ("className", Str("text-3xl")), ("as", Str("h2"))]),
                       Ref("Text", [("children", Str("Another text Here")), ("className", Str("text-lg"))])]))
  const FooterBlock := Block(Some("w-full"), Some([
                         Ref("Text", [("className", Str("text-center")), ("children", Str("Another section tile"))])]))

  /** A one-section page: section "S1", block "B1", one `h1` text saying "Hi". */
  const HeadingProps: Props := [("children", Str("Hi")), ("as", Str("h1"))]
  const Heading := LemonadeUi("", "", "", "", [
    Section(None, Some("S1"), Some([Block(Some("B1"), Some([Ref("Text", HeadingProps)]))]))])

  /** The `page` constant the application hands to the builder. */
  const Page := LemonadeUi(
    "Vite + React",
    "Vite + React + TypeScript + Tailwind CSS",
    "https://vitejs.dev/guide/features.html",
    "https://vitejs.dev/logo.svg",
    [ Section(None, Some("flex flex-col bg-gray-900 text-white p-5"), Some([HeroBlock, CtaBlock])),
      Section(None, Some("flex bg-gray-800 text-white p-5"), Some([TileBlock])),
      Section(None, Some("flex bg-gray-200 text-teal-950 p-5"), Some([FooterBlock]))
    ])
}

/** What the builder makes of the example pages. */
module ExamplePageRendering {
  import opened Wrappers
  import opened JsValues
  import opened Components
  import opened PageBuilder
  import opened ExamplePage

  lemma PageRefsWellFormed()
    ensures AllWellFormed(PageRefs(Page))
  {
    FlatMapAllWellFormed(SectionRefs, Page.sections);
    forall i | 0 <= i < |Page.sections| ensures AllWellFormed(SectionRefs(Page.sections[i])) {
      FlatMapAllWellFormed(BlockRefs, Page.sections[i].blocks.value);
    }
  }

  /** The page builds without throwing, into three section regions carrying
      the sections' styles. */
  lemma PageBuilds()
    ensures Builder(Page).Success?
    ensures |Builder(Page).value| == 3
    ensures forall i :: 0 <= i < 3 ==> Builder(Page).value[i].className == Page.sections[i].style
  {
    PageRefsWellFormed();
    BuilderErrors(Page);
  }

  /** The heading and the two calls to action sit where the description puts
      them: first block of the first section, and second block of it. */
  lemma PageLeaves()
    ensures Builder(Page).Success?
    ensures Success(Builder(Page).value[0].body.value[0].body.value[0]) == BuildComponent(HeroBlock.components.value[0])
    ensures Success(Builder(Page).value[0].body.value[1].body.value[0]) == BuildComponent(CtaBlock.components.value[0])
    ensures Success(Builder(Page).value[0].body.value[1].body.value[1]) == BuildComponent(CtaBlock.components.value[1])
  {
    PageBuilds();
    NodeAt(Page, 0, 0, 0);
    NodeAt(Page, 0, 1, 0);
    NodeAt(Page, 0, 1, 1);
  }

  /** The hero title renders as an `h1` holding "Hello there". */
  lemma HeroTitleRenders()
    ensures var e := Text(BuildComponent(HeroBlock.components.value[0]).value.props);
            e.tag == Str("h1") && Content(e) == Some(Str("Hello there")) && ClassName(e) == Str("text-6xl")
  {
    assert Get(HeroTitle, "as") == Str("h1") && Get(HeroTitle, "children") == Str("Hello there");
    assert Get(HeroTitle, "className") == Str("text-6xl");
    TextReferenceRendered(HeroBlock.components.value[0], HeroTitle);
  }

  lemma PrimaryCtaFacts()
    ensures DistinctKeys(PrimaryCta) && !Has(PrimaryCta, "className")
    ensures Get(PrimaryCta, "flavor") == Str("primary") && Get(PrimaryCta, "onClick") == PrimaryClick
    ensures Get(PrimaryCta, "children") == Str("Primary Call to action")
  {
    DistinctKeysAt(PrimaryCta);
    KeysAt(PrimaryCta);
  }

  /** The primary call to action is a primary-styled button holding its label. */
  lemma PrimaryCtaRenders()
    ensures var e := Button(BuildComponent(CtaBlock.components.value[0]).value.props);
            ClassName(e) == Str(PrimaryClass) && Content(e) == Some(Str("Primary Call to action"))
  {
    PrimaryCtaFacts();
    ButtonReferenceRendered(CtaBlock.components.value[0], PrimaryCta);
  }

  /** The primary call to action's button keeps its click handler. */
  lemma PrimaryCtaKeepsHandler()
    ensures BuildComponent(CtaBlock.components.value[0]).Success?
    ensures Get(Button(BuildComponent(CtaBlock.components.value[0]).value.props).props, "onClick") == PrimaryClick
  {
    PrimaryCtaFacts();
    var q := BuildComponent(CtaBlock.components.value[0]).value.props;
    assert DistinctKeys(q) && Get(q, "onClick") == PrimaryClick;
  }

  lemma SecondaryCtaFacts()
    ensures DistinctKeys(SecondaryCta) && !Has(SecondaryCta, "className")
    ensures Get(SecondaryCta, "flavor") == Str("secondary")
  {
    DistinctKeysAt(SecondaryCta);
    KeysAt(SecondaryCta);
  }

  /** The secondary call to action is secondary-styled. */
  lemma SecondaryCtaRenders()
    ensures ClassName(Button(BuildComponent(CtaBlock.components.value[1]).value.props)) == Str(SecondaryClass)
  {
    SecondaryCtaFacts();
    ButtonReferenceRendered(CtaBlock.components.value[1], SecondaryCta);
  }

  lemma HeadingRefsWellFormed()
    ensures AllWellFormed(PageRefs(Heading))
  {
    FlatMapAllWellFormed(SectionRefs, Heading.sections);
    FlatMapAllWellFormed(BlockRefs, Heading.sections[0].blocks.value);
  }

  lemma HeadingBuilds()
    ensures Builder(Heading).Success?
    ensures var out := Builder(Heading).value;
            && |out| == 1 && out[0].className == Some("S1")
            && |out[0].body.value| == 1 && out[0].body.value[0].className == Some("B1")
            && |out[0].body.value[0].body.value| == 1
            && Success(out[0].body.value[0].body.value[0]) == BuildComponent(Ref("Text", HeadingProps))
  {
    HeadingRefsWellFormed();
    BuilderErrors(Heading);
    NodeAt(Heading, 0, 0, 0);
  }

  /** One section "S1", one block "B1", one text reference with children "Hi"
      and `as: 'h1'`: a section region around a div region around an `h1`
      element holding "Hi". */
  lemma SingleHeading()
    ensures Builder(Heading).Success?
    ensures var out := Builder(Heading).value;
            && |out| == 1 && out[0].className == Some("S1")
            && |out[0].body.value| == 1 && out[0].body.value[0].className == Some("B1")
            && |out[0].body.value[0].body.value| == 1
            && var leaf := out[0].body.value[0].body.value[0];
               && leaf.component == Some(TextComponent)
               && Text(leaf.props).tag == Str("h1")
               && Content(Text(leaf.props)) == Some(Str("Hi"))
  {
    HeadingBuilds();
    assert Get(HeadingProps, "as") == Str("h1") && Get(HeadingProps, "children") == Str("Hi");
    TextReferenceRendered(Ref("Text", HeadingProps), HeadingProps);
  }
}
