/**
 * The `Builder` interpreter: it walks a page description in three nested,
 * order-preserving maps (sections, then blocks, then component references)
 * and turns each component reference into an element of the registered
 * component, with the reference's `children` passed as content.
 */
module PageBuilder {
  import opened Wrappers
  import opened JsValues
  import opened Components

  /** A component reference `{ Button: {...} }` as its `Object.entries` list:
      (kind name, props bag) pairs in enumeration order. A props bag of null
      or undefined is None. */
  type ComponentRef = seq<(string, Option<Props>)>

  datatype Block = Block(style: Option<string>, components: Option<seq<ComponentRef>>)

  datatype Section = Section(name: Option<string>, style: Option<string>, blocks: Option<seq<Block>>)

  /** The page description. The four metadata strings are never read. */
  datatype LemonadeUi = LemonadeUi(
    title: string, description: string, url: string, image: string,
    sections: seq<Section>)

  /** The tree `Builder` returns. A region's body is None when the list it
      maps over is absent (`?.map` yields undefined). A component node is the
      element `<Component {...props} />` before React renders it; its type is
      None when the registry has no such name. */
  datatype Node =
    | SectionNode(className: Option<string>, body: Option<seq<Node>>)
    | DivNode(className: Option<string>, body: Option<seq<Node>>)
    | ComponentNode(component: Option<Kind>, props: Props)

  /** The TypeErrors a malformed reference throws: no entry at all
      (`component[0]` of undefined), or a props bag that cannot be
      destructured. */
  datatype BuildError = EmptyReference | NullishProps(name: string)

  /** `xs.map(f)` where `f` may throw: the first throw aborts the map. */
  function MapEach<A, B, E>(f: A -> Result<B, E>, xs: seq<A>): (r: Result<seq<B>, E>)
    ensures r.Success? <==> forall i :: 0 <= i < |xs| ==> f(xs[i]).Success?
    ensures r.Success? ==> |r.value| == |xs| && forall i :: 0 <= i < |xs| ==> f(xs[i]) == Success(r.value[i])
    ensures r.Failure? ==> exists i :: 0 <= i < |xs| && f(xs[i]) == Failure(r.error)
                                     && forall j :: 0 <= j < i ==> f(xs[j]).Success?
  {
    if xs == [] then Success([])
    else
      match f(xs[0])
      case Failure(e) => Failure(e)
      case Success(y) =>
        match MapEach(f, xs[1..])
        case Failure(e) =>
          ghost var i :| 0 <= i < |xs[1..]| && f(xs[1..][i]) == Failure(e)
                         && forall j :: 0 <= j < i ==> f(xs[1..][j]).Success?;
          assert f(xs[i + 1]) == Failure(e);
          Failure(e)
        case Success(ys) => Success([y] + ys)
  }

  /** `list?.map(f)`: an absent list maps to an absent result. */
  function MapOptional<A, B, E>(f: A -> Result<B, E>, xs: Option<seq<A>>): (r: Result<Option<seq<B>>, E>)
    ensures r.Success? <==> (xs.Some? ==> forall i :: 0 <= i < |xs.value| ==> f(xs.value[i]).Success?)
    ensures r.Success? ==> (r.value.Some? <==> xs.Some?)
    ensures r.Failure? ==> xs.Some? && exists i :: 0 <= i < |xs.value| && f(xs.value[i]) == Failure(r.error)
                                                  && forall j :: 0 <= j < i ==> f(xs.value[j]).Success?
    ensures r.Success? && xs.Some? ==>
              |r.value.value| == |xs.value| && forall i :: 0 <= i < |xs.value| ==> f(xs.value[i]) == Success(r.value.value[i])
  {
    match xs
    case None => Success(None)
    case Some(ys) =>
      var mapped :- MapEach(f, ys);
      Success(Some(mapped))
  }

  /** A reference the builder can resolve without throwing. */
  predicate WellFormedRef(ref: ComponentRef) {
    |ref| > 0 && ref[0].1.Some?
  }

  predicate AllWellFormed(refs: seq<ComponentRef>) {
    forall m :: 0 <= m < |refs| ==> WellFormedRef(refs[m])
  }

  /** `e` is the error of the first reference in `refs` that cannot be resolved. */
  ghost predicate FirstErrorIs(refs: seq<ComponentRef>, e: BuildError) {
    exists g :: 0 <= g < |refs| && BuildComponent(refs[g]) == Failure(e)
                && forall m :: 0 <= m < g ==> WellFormedRef(refs[m])
  }

  /** `f` applied to each element of `xs`, results concatenated in order. */
  function FlatMap<A, B>(f: A -> seq<B>, xs: seq<A>): seq<B> {
    if xs == [] then [] else f(xs[0]) + FlatMap(f, xs[1..])
  }

  /** Every component reference of a block, of a section and of a page, in
      document order. */
  function BlockRefs(b: Block): seq<ComponentRef> {
    if b.components.Some? then b.components.value else []
  }

  function SectionRefs(s: Section): seq<ComponentRef> {
    if s.blocks.Some? then FlatMap(BlockRefs, s.blocks.value) else []
  }

  function PageRefs(ui: LemonadeUi): seq<ComponentRef> {
    FlatMap(SectionRefs, ui.sections)
  }

  lemma {:induction false} FlatMapAllWellFormed<A>(f: A -> seq<ComponentRef>, xs: seq<A>)
    ensures AllWellFormed(FlatMap(f, xs)) <==> forall a :: 0 <= a < |xs| ==> AllWellFormed(f(xs[a]))
  {
    if xs != [] {
      FlatMapAllWellFormed(f, xs[1..]);
      var head, tail := f(xs[0]), FlatMap(f, xs[1..]);
      assert FlatMap(f, xs) == head + tail;
      if AllWellFormed(head + tail) {
        assert AllWellFormed(head) by {
          forall m | 0 <= m < |head| ensures WellFormedRef(head[m]) { assert head[m] == (head + tail)[m]; }
        }
        assert AllWellFormed(tail) by {
          forall m | 0 <= m < |tail| ensures WellFormedRef(tail[m]) { assert tail[m] == (head + tail)[|head| + m]; }
        }
        forall a | 0 <= a < |xs| ensures AllWellFormed(f(xs[a])) {
          if a > 0 { assert xs[a] == xs[1..][a - 1]; }
        }
      }
      if forall a :: 0 <= a < |xs| ==> AllWellFormed(f(xs[a])) {
        assert AllWellFormed(head);
        forall a | 0 <= a < |xs[1..]| ensures AllWellFormed(f(xs[1..][a])) { assert xs[1..][a] == xs[a + 1]; }
      }
    }
  }

  /** A first error of `head` stays the first error once `tail` is appended. */
  lemma FirstErrorPrefix(head: seq<ComponentRef>, tail: seq<ComponentRef>, e: BuildError)
    requires FirstErrorIs(head, e)
    ensures FirstErrorIs(head + tail, e)
  {
    var g :| 0 <= g < |head| && BuildComponent(head[g]) == Failure(e)
             && forall m :: 0 <= m < g ==> WellFormedRef(head[m]);
    assert (head + tail)[g] == head[g];
    assert forall m :: 0 <= m < g ==> (head + tail)[m] == head[m];
  }

  /** A first error of `tail` is the first error of `head + tail` when nothing
      in `head` fails. */
  lemma FirstErrorSuffix(head: seq<ComponentRef>, tail: seq<ComponentRef>, e: BuildError)
    requires AllWellFormed(head) && FirstErrorIs(tail, e)
    ensures FirstErrorIs(head + tail, e)
  {
    var g :| 0 <= g < |tail| && BuildComponent(tail[g]) == Failure(e)
             && forall m :: 0 <= m < g ==> WellFormedRef(tail[m]);
    assert (head + tail)[|head| + g] == tail[g];
    forall m | 0 <= m < |head| + g ensures WellFormedRef((head + tail)[m]) {
      if m >= |head| { assert (head + tail)[m] == tail[m - |head|]; }
    }
  }

  lemma {:induction false} FlatMapFirstError<A>(f: A -> seq<ComponentRef>, xs: seq<A>, j: nat, e: BuildError)
    requires j < |xs| && FirstErrorIs(f(xs[j]), e)
    requires forall a :: 0 <= a < j ==> AllWellFormed(f(xs[a]))
    ensures FirstErrorIs(FlatMap(f, xs), e)
  {
    var head, tail := f(xs[0]), FlatMap(f, xs[1..]);
    assert FlatMap(f, xs) == head + tail;
    if j == 0 {
      FirstErrorPrefix(head, tail, e);
    } else {
      assert AllWellFormed(head);
      assert xs[1..][j - 1] == xs[j];
      forall a | 0 <= a < j - 1 ensures AllWellFormed(f(xs[1..][a])) { assert xs[1..][a] == xs[a + 1]; }
      FlatMapFirstError(f, xs[1..], j - 1, e);
      FirstErrorSuffix(head, tail, e);
    }
  }

  /** One component reference: take its first entry, look the kind up in the
      registry, split `children` off the props and pass it back as content
      only when it is not null or undefined. */
  function BuildComponent(ref: ComponentRef): (r: Result<Node, BuildError>)
    ensures r.Success? <==> WellFormedRef(ref)
    ensures |ref| == 0 ==> r == Failure(EmptyReference)
    ensures |ref| > 0 && ref[0].1.None? ==> r == Failure(NullishProps(ref[0].0))
    ensures r.Success? ==> r.value.ComponentNode? && r.value.component == Lookup(ref[0].0)
    ensures r.Success? ==>
              var p, q := ref[0].1.value, r.value.props;
              && (Has(q, "children") <==> NotNullish(Get(p, "children")))
              && Get(q, "children") == (if NotNullish(Get(p, "children")) then Get(p, "children") else Undefined)
              && (forall k :: k != "children" ==> Has(q, k) == Has(p, k) && Get(q, k) == Get(p, k))
              && (DistinctKeys(p) ==> DistinctKeys(q))
  {
    if |ref| == 0 then Failure(EmptyReference)
    else
      var (name, bag) := ref[0];
      match bag
      case None => Failure(NullishProps(name))
      case Some(props) =>
        var children := Get(props, "children");
        var restProps := Remove(props, "children");
        var passed := if NotNullish(children) then Assign(restProps, "children", children) else restProps;
        Success(ComponentNode(Lookup(name), passed))
  }

  /** `<div className={block.style}>` around the block's mapped components. */
  function BuildBlock(b: Block): (r: Result<Node, BuildError>)
    ensures r.Success? <==> AllWellFormed(BlockRefs(b))
    ensures r.Failure? ==> FirstErrorIs(BlockRefs(b), r.error)
    ensures r.Success? ==>
              && r.value.DivNode?
              && r.value.className == b.style
              && (r.value.body.Some? <==> b.components.Some?)
              && (b.components.Some? ==>
                    |r.value.body.value| == |b.components.value|
                    && forall k :: 0 <= k < |b.components.value| ==>
                         BuildComponent(b.components.value[k]) == Success(r.value.body.value[k]))
  {
    var body :- MapOptional(BuildComponent, b.components);
    Success(DivNode(b.style, body))
  }

  /** `<section className={section.style}>` around the section's mapped blocks. */
  function BuildSection(s: Section): (r: Result<Node, BuildError>)
    ensures r.Success? <==> (s.blocks.Some? ==> forall j :: 0 <= j < |s.blocks.value| ==> BuildBlock(s.blocks.value[j]).Success?)
    ensures r.Success? ==>
              && r.value.SectionNode?
              && r.value.className == s.style
              && (r.value.body.Some? <==> s.blocks.Some?)
              && (s.blocks.Some? ==>
                    |r.value.body.value| == |s.blocks.value|
                    && forall j :: 0 <= j < |s.blocks.value| ==>
                         BuildBlock(s.blocks.value[j]) == Success(r.value.body.value[j]))
  {
    var body :- MapOptional(BuildBlock, s.blocks);
    Success(SectionNode(s.style, body))
  }

  /** The whole page: one region per section, in order. */
  function Builder(ui: LemonadeUi): (r: Result<seq<Node>, BuildError>)
    ensures r.Success? <==> forall i :: 0 <= i < |ui.sections| ==> BuildSection(ui.sections[i]).Success?
    ensures r.Success? ==>
              |r.value| == |ui.sections|
              && forall i :: 0 <= i < |ui.sections| ==> BuildSection(ui.sections[i]) == Success(r.value[i])
  {
    MapEach(BuildSection, ui.sections)
  }

  /** A section builds exactly when all its references are well formed, and
      otherwise fails with the error of the first one that is not. */
  lemma SectionErrors(s: Section)
    ensures BuildSection(s).Success? <==> AllWellFormed(SectionRefs(s))
    ensures BuildSection(s).Failure? ==> FirstErrorIs(SectionRefs(s), BuildSection(s).error)
  {
    if s.blocks.Some? {
      var bs := s.blocks.value;
      FlatMapAllWellFormed(BlockRefs, bs);
      if BuildSection(s).Failure? {
        var j :| 0 <= j < |bs| && BuildBlock(bs[j]) == Failure(BuildSection(s).error)
                 && forall m :: 0 <= m < j ==> BuildBlock(bs[m]).Success?;
        FlatMapFirstError(BlockRefs, bs, j, BuildSection(s).error);
      }
    }
  }

  /** The page builds exactly when every component reference on it is well
      formed; otherwise the builder throws the error of the first malformed
      reference in document order. */
  lemma BuilderErrors(ui: LemonadeUi)
    ensures Builder(ui).Success? <==> AllWellFormed(PageRefs(ui))
    ensures Builder(ui).Failure? ==> FirstErrorIs(PageRefs(ui), Builder(ui).error)
  {
    var ss := ui.sections;
    forall i | 0 <= i < |ss| { SectionErrors(ss[i]); }
    FlatMapAllWellFormed(SectionRefs, ss);
    if Builder(ui).Failure? {
      var r := MapEach(BuildSection, ss);
      var i :| 0 <= i < |ss| && BuildSection(ss[i]) == Failure(r.error)
               && forall m :: 0 <= m < i ==> BuildSection(ss[m]).Success?;
      FlatMapFirstError(SectionRefs, ss, i, r.error);
    }
  }

  /** The node at path (i, j, k) of the output is the i-th section's j-th
      block's k-th reference, resolved; every region on the way carries its
      input's style. */
  lemma NodeAt(ui: LemonadeUi, i: nat, j: nat, k: nat)
    requires Builder(ui).Success?
    requires i < |ui.sections|
    requires ui.sections[i].blocks.Some? && j < |ui.sections[i].blocks.value|
    requires ui.sections[i].blocks.value[j].components.Some?
    requires k < |ui.sections[i].blocks.value[j].components.value|
    ensures var section := Builder(ui).value[i];
            && section == SectionNode(ui.sections[i].style, section.body)
            && section.body.Some? && j < |section.body.value|
            && var block := section.body.value[j];
               && block == DivNode(ui.sections[i].blocks.value[j].style, block.body)
               && block.body.Some? && k < |block.body.value|
               && Success(block.body.value[k]) == BuildComponent(ui.sections[i].blocks.value[j].components.value[k])
  {
  }

  /** The builder never reads the page's metadata. */
  lemma MetadataIgnored(ui: LemonadeUi, title: string, description: string, url: string, image: string)
    ensures Builder(ui.(title := title, description := description, url := url, image := image)) == Builder(ui)
  {
  }

  /** An empty string is not null, so it is still passed as content. */
  lemma EmptyChildrenIsContent(name: string, p: Props)
    requires Get(p, "children") == Str("")
    ensures BuildComponent([(name, Some(p))]).Success?
    ensures Has(BuildComponent([(name, Some(p))]).value.props, "children")
    ensures Get(BuildComponent([(name, Some(p))]).value.props, "children") == Str("")
  {
  }

  /** A `Button` reference rendered: it is a button whose content is the
      reference's children when present, styled by its flavor unless the
      reference gives a `className`. */
  lemma ButtonReferenceRendered(ref: ComponentRef, p: Props)
    requires |ref| > 0 && ref[0] == ("Button", Some(p)) && DistinctKeys(p)
    ensures BuildComponent(ref).Success? && BuildComponent(ref).value.component == Some(ButtonComponent)
    ensures var e := Button(BuildComponent(ref).value.props);
            && e.tag == Str("button")
            && Content(e) == (if NotNullish(Get(p, "children")) then Some(Get(p, "children")) else None)
            && ClassName(e) == (if Has(p, "className") then Get(p, "className") else FlavorClass(EffectiveFlavor(p)))
  {
    var q := BuildComponent(ref).value.props;
    assert DistinctKeys(q) && Get(q, "flavor") == Get(p, "flavor");
    assert Has(q, "className") == Has(p, "className") && Get(q, "className") == Get(p, "className");
    ButtonContent(q);
  }

  /** A `Text` reference rendered: its tag is `as` when truthy, else `p`, and
      its content is the reference's children when present. */
  lemma TextReferenceRendered(ref: ComponentRef, p: Props)
    requires |ref| > 0 && ref[0] == ("Text", Some(p))
    ensures BuildComponent(ref).Success? && BuildComponent(ref).value.component == Some(TextComponent)
    ensures var e := Text(BuildComponent(ref).value.props);
            && e.tag == (if Truthy(Get(p, "as")) then Get(p, "as") else Str("p"))
            && Content(e) == (if NotNullish(Get(p, "children")) then Some(Get(p, "children")) else None)
            && ClassName(e) == Get(p, "className")
  {
  }
}
