# Lemonade UI page builder, modelled in Dafny

This project models the page interpreter in `src/App.tsx`. A page
description (`LemonadeUi`) lists sections. Each section lists blocks, and each
block lists component references such as `{ Button: { children, flavor } }`.
`Builder` walks this tree with three nested, order-preserving maps. It turns
each section into a `<section>` carrying the section's style, and each block
into a `<div>` carrying the block's style. It turns each reference into an
element of the component registered under the reference's first key, with
the reference's `children` passed as content. The two registered components
are modelled as what they return:

- `Button` renders a `<button>` styled by the `flavors` table.
- `Text` renders a tag taken from its `as` prop.

The model is pure, as the source is: datatypes, functions and lemmas.

- `wrappers.dfy`: module `Wrappers`, holding `Option` and `Result`.
- `js_values.dfy`: module `JsValues`. It holds the JavaScript values the
  builder inspects, truthiness, and loose `!= null`. A props object is an
  ordered list of entries, in `Object.entries` order. The module also holds
  the object operations the source uses:
  - property read (`Get`);
  - rest destructuring (`Remove`);
  - property assignment (`Assign`);
  - object spread (`Spread`).
- `components.dfy`: module `Components`, holding `flavors`, `Button`, `Text`
  and the `COMPONENT` registry (`Lookup`).
- `builder.dfy`: module `PageBuilder`, holding the page types, `Builder` and
  its three levels, and the lemmas about them.
- `example_page.dfy`: modules `ExamplePage` and `ExamplePageRendering`. They
  hold the application's own `page` constant, a one-heading page, and what
  the builder makes of both.

The input types follow the TypeScript types of the source: sections, blocks
and references are never null, and a props bag is an object or nullish. For
such inputs Builder can throw a TypeError in exactly two places, and both are
modelled as a `Failure` result:

- a reference with no entry at all, because `component[0]` reads from
  undefined (`EmptyReference`);
- a props bag of `null` or `undefined`, which cannot be destructured
  (`NullishProps`).

The first of these failures in document order aborts the whole page. A kind
name the registry does not hold is not an error inside Builder. It yields an
element whose component is `None`, which is the undefined type the source
would hand to React.

The model follows the code on these points, which are easy to misread:

- The button's style prop is `flavor`.
- The default `'primary'` applies only when `flavor` reads as undefined.
  `null` and an unknown name are kept as given.
- `flavors[flavor]` of an unknown name is undefined, so such a button gets no
  class at all rather than the primary one (`Components.ButtonClassCases`).
- A `className` passed in the reference is spread after the flavor's class,
  so it replaces that class.
- Content is passed exactly when `children != null`. An empty string
  therefore still counts as content.

## Model

| member | source | states |
|---|---|---|
| JsValues.Get | src/App.tsx:10-19 | A property read (of `flavor` at line 10, of `as` at line 19, and of `children` at line 147) yields undefined for a missing key, otherwise the value stored under that key, the only one when keys are distinct |
| JsValues.Remove | src/App.tsx:147 | Rest destructuring keeps exactly the other entries, in their order: a subsequence with every other key's value unchanged and the key gone |
| JsValues.Assign | src/App.tsx:150-152 | Setting a property makes it read as the new value and leaves every other key alone; an existing key keeps its place, and a new one is appended |
| JsValues.Spread | src/App.tsx:11 | Spreading `b` over `a` gives the union of keys, where `b` wins on shared keys, `a`'s keys keep their order in front, and keys stay distinct |
| JsValues.Truthy | src/App.tsx:19 | A value is falsy exactly when it is undefined, null, false, 0 or "" |
| JsValues.NotNullish | src/App.tsx:149 | `v != null` is false exactly for null and undefined, and a nullish value is never truthy |
| JsValues.KeysAt | src/App.tsx:144 | The key set of an entry list is the set of its entries' keys |
| JsValues.DistinctKeysAt | src/App.tsx:144 | An entry list has distinct keys exactly when no two positions hold the same key |
| Components.FlavorClass | src/App.tsx:6-9 | `flavors[flavor]` is the primary class exactly for "primary", the secondary class exactly for "secondary", and undefined for anything else |
| Components.EffectiveFlavor | src/App.tsx:10 | The destructuring default gives "primary" exactly when the prop reads as undefined, and otherwise the given value |
| Components.Button | src/App.tsx:10-12 | A `<button>` whose keys are `className` plus every prop but `flavor`, whose class is the forwarded `className` if one is given and otherwise the flavor's class, and which forwards every other prop unchanged |
| Components.ButtonClassCases | src/App.tsx:10-11 | A button's class, case by case: a forwarded `className`; primary for no flavor or "primary"; secondary for "secondary"; undefined for any other flavor |
| Components.ButtonContent | src/App.tsx:11 | A button's content is its `children` prop exactly when it has one |
| Components.Text | src/App.tsx:18-21 | The tag is `as` when that is truthy and `p` otherwise (never a falsy tag); every prop, `as` included, is forwarded unchanged |
| Components.TextTagCases | src/App.tsx:19-20 | `Text` renders `p` for a missing, empty, null or undefined `as`, and renders any non-empty string tag as given; class and content pass through |
| Components.Lookup | src/App.tsx:23-26 | The registry holds exactly "Button" and "Text", each under its own component's name; any other name reads as undefined |
| Components.LookupName | src/App.tsx:23-26 | Looking up a registered component's name finds that component |
| PageBuilder.MapEach | src/App.tsx:136 | A map whose callback may throw succeeds exactly when every call does, with results pointwise and in order; otherwise it throws the first failing call's error |
| PageBuilder.MapOptional | src/App.tsx:139 | `?.map` yields nothing for an absent list and otherwise maps it as above |
| PageBuilder.BuildComponent | src/App.tsx:143-155 | A reference builds exactly when it has a first entry whose props bag is not nullish, and fails with the matching TypeError otherwise; the component is the registry entry for the first key; `children` is passed exactly when not null or undefined; every other prop is forwarded unchanged |
| PageBuilder.BuildBlock | src/App.tsx:139-158 | A block becomes one `div` with `className` equal to the block's style, holding one resolved element per reference, in order, and nothing when `components` is absent; it builds exactly when all its references are well formed, and otherwise throws the first malformed one's error |
| PageBuilder.BuildSection | src/App.tsx:136-161 | A section becomes one `section` with `className` equal to the section's style, holding one built block per block, in order, and nothing when `blocks` is absent |
| PageBuilder.Builder | src/App.tsx:131-166 | The page becomes one section region per input section, in order, each the built section |
| PageBuilder.FlatMapAllWellFormed | src/App.tsx:136-143 | All references of a nested list are well formed exactly when all those of every part are |
| PageBuilder.FirstErrorPrefix | src/App.tsx:136-143 | The first malformed reference of a list stays the first one when more references follow it |
| PageBuilder.FirstErrorSuffix | src/App.tsx:136-143 | When every reference before a list is well formed, that list's first malformed reference is the first one of the whole |
| PageBuilder.FlatMapFirstError | src/App.tsx:136-143 | The first malformed reference of a part whose predecessors are all well formed is the first malformed reference of the whole |
| PageBuilder.SectionErrors | src/App.tsx:139-156 | A section builds exactly when every reference in it is well formed, and otherwise throws the error of the first malformed one |
| PageBuilder.BuilderErrors | src/App.tsx:136-156 | The page builds exactly when every reference on it is well formed, and otherwise throws the error of the first malformed one in document order |
| PageBuilder.NodeAt | src/App.tsx:136-156 | The node at path (i, j, k) of the output is reference k of block j of section i, resolved, inside regions that carry that section's and that block's styles |
| PageBuilder.MetadataIgnored | src/App.tsx:131-166 | Changing the title, description, url or image does not change the output |
| PageBuilder.EmptyChildrenIsContent | src/App.tsx:149 | An empty-string `children` is still passed as content |
| PageBuilder.ButtonReferenceRendered | src/App.tsx:143-155 | A `Button` reference renders a button whose content is the reference's non-nullish children and whose class is the reference's `className` or else its flavor's class |
| PageBuilder.TextReferenceRendered | src/App.tsx:143-155 | A `Text` reference renders the `as` tag when truthy and `p` otherwise, with the reference's non-nullish children as content and its `className` as class |
| ExamplePageRendering.PageRefsWellFormed | src/App.tsx:54-129 | Every component reference on the application's page has a props bag |
| ExamplePageRendering.PageBuilds | src/App.tsx:54-129 | The application's page builds without throwing, into three section regions that carry the sections' styles |
| ExamplePageRendering.PageLeaves | src/App.tsx:59-93 | The hero heading and the two calls to action sit in the first and second blocks of the first section |
| ExamplePageRendering.HeroTitleRenders | src/App.tsx:66-73 | The hero title renders as an `h1` holding "Hello there" with class `text-6xl` |
| ExamplePageRendering.PrimaryCtaFacts | src/App.tsx:82-88 | The primary call to action's props have distinct keys, no `className`, flavor "primary", the click handler, and its label |
| ExamplePageRendering.PrimaryCtaRenders | src/App.tsx:82-88 | The primary call to action renders with the primary class and its label as content |
| ExamplePageRendering.PrimaryCtaKeepsHandler | src/App.tsx:86 | The primary call to action's button keeps its click handler |
| ExamplePageRendering.SecondaryCtaFacts | src/App.tsx:89 | The secondary call to action's props have distinct keys, no `className`, and flavor "secondary" |
| ExamplePageRendering.SecondaryCtaRenders | src/App.tsx:89 | The secondary call to action renders with the secondary class |
| ExamplePageRendering.HeadingRefsWellFormed | src/App.tsx:143-146 | The one-heading page's only reference has a props bag |
| ExamplePageRendering.HeadingBuilds | src/App.tsx:136-156 | A page with one section "S1", one block "B1" and one reference builds into one section, one div and one resolved element |
| ExamplePageRendering.SingleHeading | src/App.tsx:136-156 | That page renders as a section "S1" around a div "B1" around an `h1` text element holding "Hi" |

## Left out

- React rendering, the `React.FC` wrappers and `App` (src/App.tsx:168-172) are not modelled. The model stops at the element tree `Builder` returns, and at the host element each component returns.
- The fragments (src/App.tsx:133, 142) are not modelled. They add no element of their own, so a block's `div` holds the mapped components directly.
- The React `key` props on sections, divs and components are not modelled. React also strips reserved `key` and `ref` props from what a component receives, and that is not modelled either.
- React's failure when asked to render an element whose type is undefined is not modelled. It happens after `Builder` returns, for a kind name the registry does not hold.
- Keys inherited through the prototype chain (such as `toString`) are not modelled. A read of `flavors[...]` or `COMPONENT[...]` finds only the object's own entries.
- Values are modelled without floating point. A number is an integer, so `NaN` as a falsy `as` value does not arise.
- `Object.entries` order is taken as given by the entry list. The rule that integer-like keys come first is not modelled.
- The `onClick` handler is an opaque object value that is forwarded. Calling it (its `console.log`) is not modelled.
- The SEO comment at src/App.tsx:134 is not implemented in the source.
- The TypeScript types restrict `flavor` and `as` only at compile time. The model follows the runtime behaviour instead, so any value of the model may appear there.
- The input types follow the TypeScript types, so inputs outside them are not modelled. A null section or block would throw at `section.style` or `block.style` (src/App.tsx:138, 141). A null reference would throw at `Object.entries` (src/App.tsx:144). A number or boolean props bag such as `{ Text: 5 }` would not throw, and would destructure to empty props. A string bag such as `{ Text: 'Hi' }` would destructure to its characters under the keys `"0"`, `"1"` and so on (src/App.tsx:147).
- Components.FlavorClass: JavaScript converts an object flavor to a string before reading `flavors`, so `['secondary']` names the secondary flavor. The model treats every object value as naming no flavor, so such a button gets no class.
- Components.Button: states its class and forwarded props only for props whose keys are distinct. That is always the case for a JavaScript object literal.
- JsValues.Spread: states its values only for a spread source with distinct keys, for the same reason.
