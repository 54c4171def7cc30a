/**
 * The two leaf components, `Button` and `Text`, the `flavors` style table and
 * the `COMPONENT` registry that maps a reference's kind name to one of them.
 * Each component is modelled as what it returns: one host element, a tag and
 * the props React hands to the DOM for it.
 */
module Components {
  import opened Wrappers
  import opened JsValues

  const PrimaryClass := "bg-pink-500 hover:bg-pink-700 text-white h-10 px-5 rounded"
  const SecondaryClass := "bg-gray-500 hover:bg-gray-700 text-white h-10 px-5 rounded"

  /** The `flavors` table: flavor name to the class string a button gets. */
  const Flavors: map<string, string> := map["primary" := PrimaryClass, "secondary" := SecondaryClass]

  /** A host element `<tag {...props} />`. The tag is a value because `Text`
      renders whatever `as` holds. */
  datatype Element = Element(tag: Value, props: Props)

  /** The element's `className` attribute (undefined when it has none). */
  function ClassName(e: Element): Value {
    Get(e.props, "className")
  }

  /** The element's content: its `children` prop when it has one. */
  function Content(e: Element): Option<Value> {
    if Has(e.props, "children") then Some(Get(e.props, "children")) else None
  }

  /** `flavors[flavor]`: a property read on the table, so any value other than
      the two flavor names reads as undefined. */
  function FlavorClass(flavor: Value): (c: Value)
    ensures c == Str(PrimaryClass) <==> flavor == Str("primary")
    ensures c == Str(SecondaryClass) <==> flavor == Str("secondary")
    ensures c == Undefined <==> flavor != Str("primary") && flavor != Str("secondary")
  {
    if flavor.Str? && flavor.s in Flavors then Str(Flavors[flavor.s]) else Undefined
  }

  /** The parameter default `flavor = 'primary'`: it applies only when the prop
      reads as undefined, so null or an unknown name is kept as given. */
  function EffectiveFlavor(p: Props): (f: Value)
    ensures f != Undefined
    ensures Get(p, "flavor") != Undefined ==> f == Get(p, "flavor")
    ensures Get(p, "flavor") == Undefined ==> f == Str("primary")
  {
    var given := Get(p, "flavor");
    if given == Undefined then Str("primary") else given
  }

  /** `<button className={flavors[flavor]} {...restProps} />`, where `restProps`
      is every prop but `flavor`. The spread comes after `className`, so a
      forwarded `className` replaces the flavor's class in place. */
  function Button(p: Props): (e: Element)
    ensures e.tag == Str("button")
    ensures |e.props| > 0 && e.props[0].0 == "className"
    ensures Keys(e.props) == {"className"} + (Keys(p) - {"flavor"})
    ensures DistinctKeys(p) ==> ClassName(e) == if Has(p, "className") then Get(p, "className") else FlavorClass(EffectiveFlavor(p))
    ensures DistinctKeys(p) ==> forall k :: k != "className" && k != "flavor" ==> Get(e.props, k) == Get(p, k)
    ensures DistinctKeys(p) ==> DistinctKeys(e.props)
  {
    var restProps := Remove(p, "flavor");
    var base := [("className", FlavorClass(EffectiveFlavor(p)))];
    assert base[1..] == [];
    assert Keys(base[1..]) == {};
    assert Keys(base) == {"className"} && DistinctKeys(base);
    Element(Str("button"), Spread(base, restProps))
  }

  /** `const Tag = props.as || 'p'; return <Tag {...props} />`: every prop,
      `as` and `className` included, is forwarded unchanged. */
  function Text(p: Props): (e: Element)
    ensures e.props == p
    ensures Truthy(Get(p, "as")) ==> e.tag == Get(p, "as")
    ensures !Truthy(Get(p, "as")) ==> e.tag == Str("p")
    ensures Truthy(e.tag)
  {
    var tag := if Truthy(Get(p, "as")) then Get(p, "as") else Str("p");
    Element(tag, p)
  }

  /** The entries of the `COMPONENT` registry. */
  datatype Kind = ButtonComponent | TextComponent

  /** The key each component is registered under. */
  function Name(k: Kind): string {
    match k
    case ButtonComponent => "Button"
    case TextComponent => "Text"
  }

  /** `COMPONENT[name]`: the registered component, or None (undefined) for any
      other name. */
  function Lookup(name: string): (k: Option<Kind>)
    ensures k.Some? ==> Name(k.value) == name
    ensures k.None? <==> name != "Button" && name != "Text"
  {
    if name == "Button" then Some(ButtonComponent)
    else if name == "Text" then Some(TextComponent)
    else None
  }

  /** Looking up a registered component's own name finds that component. */
  lemma LookupName(k: Kind)
    ensures Lookup(Name(k)) == Some(k)
  {
  }

  /** The class a button ends up with, case by case. */
  lemma ButtonClassCases(p: Props)
    requires DistinctKeys(p)
    ensures Has(p, "className") ==> ClassName(Button(p)) == Get(p, "className")
    ensures !Has(p, "className") && Get(p, "flavor") == Undefined ==> ClassName(Button(p)) == Str(PrimaryClass)
    ensures !Has(p, "className") && Get(p, "flavor") == Str("primary") ==> ClassName(Button(p)) == Str(PrimaryClass)
    ensures !Has(p, "className") && Get(p, "flavor") == Str("secondary") ==> ClassName(Button(p)) == Str(SecondaryClass)
    ensures !Has(p, "className") && Get(p, "flavor") !in {Undefined, Str("primary"), Str("secondary")} ==>
              ClassName(Button(p)) == Undefined
  {
  }

  /** A button's content is its `children` prop, passed through untouched. */
  lemma ButtonContent(p: Props)
    requires DistinctKeys(p)
    ensures Content(Button(p)) == if Has(p, "children") then Some(Get(p, "children")) else None
  {
  }

  /** The tag `Text` renders, case by case. */
  lemma TextTagCases(p: Props)
    ensures !Has(p, "as") ==> Text(p).tag == Str("p")
    ensures forall t :: Get(p, "as") == Str(t) && t != "" ==> Text(p).tag == Str(t)
    ensures Get(p, "as") in {Str(""), Null, Undefined} ==> Text(p).tag == Str("p")
    ensures ClassName(Text(p)) == Get(p, "className") && Content(Text(p)) == (if Has(p, "children") then Some(Get(p, "children")) else None)
  {
  }
}
