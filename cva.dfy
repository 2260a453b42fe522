/**
  `cva(base, config)(props)`: resolve a props object against a variant
  configuration into one class string. The curried builder only captures
  `base` and `config`, so the model passes both to every resolution.
*/
module Cva {
  import opened JsValues
  import opened Joiner
  import opened CvaProps

  /** What `config.variants[name]` holds: an option map from option name to class value, or `null`. */
  datatype VariantOptions = NullOptions | Options(classes: seq<(string, ClassValue)>)

  /**
    One element of `config.compoundVariants`: its `class` field (`undefined` when
    the field is missing) and every other field as a criterion.
  */
  datatype CompoundVariant = CompoundVariant(criteria: seq<(string, Scalar)>, className: ClassValue)

  /**
    The configuration captured by `cva`. Objects are entry lists in key order.
    `variants` is `None` when the field is missing or `null`; a missing
    `defaultVariants`, `compoundVariants` or `variantSets` is the empty list.
  */
  datatype Config = Config(
    variants: Option<seq<(string, VariantOptions)>>,
    defaultVariants: seq<(string, Scalar)>,
    compoundVariants: seq<CompoundVariant>,
    variantSets: seq<(string, seq<(string, Scalar)>)>,
    defaultVariantSet: Option<string>)

  /**
    The configuration as a JavaScript object literal produces it: every object in it,
    each option map and each variant set included, has distinct keys, and no compound
    criterion is named `class`, since destructuring moves that field out of the criteria.
  */
  predicate ConfigWellFormed(config: Config) {
    && (config.variants.Some? ==> DistinctKeys(config.variants.value))
    && (config.variants.Some? ==> forall i :: 0 <= i < |config.variants.value| && config.variants.value[i].1.Options? ==>
          DistinctKeys(config.variants.value[i].1.classes))
    && DistinctKeys(config.defaultVariants)
    && (forall i :: 0 <= i < |config.compoundVariants| ==> DistinctKeys(config.compoundVariants[i].criteria))
    && (forall i, j :: 0 <= i < |config.compoundVariants| && 0 <= j < |config.compoundVariants[i].criteria| ==>
          config.compoundVariants[i].criteria[j].0 != "class")
    && DistinctKeys(config.variantSets)
    && (forall i :: 0 <= i < |config.variantSets| ==> DistinctKeys(config.variantSets[i].1))
  }

  /** `props` as the object the resolver reads; `None` is a call without props. */
  function ObjectView(props: Option<Props>): Option<map<string, ClassValue>> {
    match props
    case None => None
    case Some(p) => Some(ObjectOf(p))
  }

  /** `propsWithoutUndefined` as spread into the merged view; spreading `undefined` adds nothing. */
  function DefinedView(props: Option<Props>): map<string, ClassValue> {
    match props
    case None => map[]
    case Some(p) => DefinedProps(p)
  }

  /** `props?.[key]` */
  function PropOf(props: Option<map<string, ClassValue>>, key: string): ClassValue {
    if props.Some? && key in props.value then props.value[key] else Leaf(Undefined)
  }

  /** `defaultVariants?.[key]` */
  function DefaultOf(defaults: seq<(string, Scalar)>, key: string): ClassValue {
    match Get(defaults, key)
    case None => Leaf(Undefined)
    case Some(x) => Leaf(x)
  }

  /** `options[key]` on an option map; a missing option is `undefined`. */
  function OptionClass(classes: seq<(string, ClassValue)>, key: string): ClassValue {
    match Get(classes, key)
    case None => Leaf(Undefined)
    case Some(c) => c
  }

  /** One declared variant: a `null` prop opts out, otherwise the prop or the default picks an option. */
  function VariantFragment(name: string, options: VariantOptions, defaults: seq<(string, Scalar)>,
                           props: Option<map<string, ClassValue>>): ClassValue
    requires options.NullOptions? ==> PropOf(props, name) == Leaf(Null)
  {
    var variantProp := PropOf(props, name);
    if variantProp == Leaf(Null) then Leaf(Null)
    else
      var variantKey := Or(BooleanToString(variantProp), BooleanToString(DefaultOf(defaults, name)));
      OptionClass(options.classes, PropertyKey(variantKey))
  }

  /**
    Reading `variants[name][key]` throws when `variants[name]` is `null`; only a
    `null` prop, which returns before the read, keeps such a variant from throwing.
  */
  predicate NullOptionsSuppressed(variants: seq<(string, VariantOptions)>, props: Option<map<string, ClassValue>>) {
    forall i :: 0 <= i < |variants| && variants[i].1.NullOptions? ==> PropOf(props, variants[i].0) == Leaf(Null)
  }

  /** The per-variant fragments, one for each declared variant in declaration order. */
  function VariantFragments(variants: seq<(string, VariantOptions)>, defaults: seq<(string, Scalar)>,
                            props: Option<map<string, ClassValue>>): seq<ClassValue>
    requires NullOptionsSuppressed(variants, props)
  {
    seq(|variants|, i requires 0 <= i < |variants| => VariantFragment(variants[i].0, variants[i].1, defaults, props))
  }

  /** `{...defaultVariants, ...propsWithoutUndefined}[key]` */
  function MergedValue(defaults: seq<(string, Scalar)>, defined: map<string, ClassValue>, key: string): ClassValue {
    if key in defined then defined[key] else DefaultOf(defaults, key)
  }

  /** Every criterion strictly equals the merged value at its key. */
  predicate Matches(compound: CompoundVariant, defaults: seq<(string, Scalar)>, defined: map<string, ClassValue>) {
    forall i :: 0 <= i < |compound.criteria| ==>
      MergedValue(defaults, defined, compound.criteria[i].0) == Leaf(compound.criteria[i].1)
  }

  /** `classNames == null` */
  predicate IsNullish(c: ClassValue) {
    c == Leaf(Null) || c == Leaf(Undefined)
  }

  /** A compound variant adds its class when the class is set and every criterion matches. */
  predicate Contributes(compound: CompoundVariant, defaults: seq<(string, Scalar)>, defined: map<string, ClassValue>) {
    !IsNullish(compound.className) && Matches(compound, defaults, defined)
  }

  /** The compound `reduce`: a left fold that appends each contributing class to the accumulator. */
  function CompoundFragments(compounds: seq<CompoundVariant>, defaults: seq<(string, Scalar)>,
                             defined: map<string, ClassValue>): seq<ClassValue>
    decreases |compounds|
  {
    if compounds == [] then []
    else
      var acc := CompoundFragments(compounds[..|compounds| - 1], defaults, defined);
      var compound := compounds[|compounds| - 1];
      if IsNullish(compound.className) then acc
      else if Matches(compound, defaults, defined) then acc + [compound.className]
      else acc
  }

  /** `props && "variant" in props && props.variant` */
  function VariantSetProp(props: Option<map<string, ClassValue>>): ClassValue {
    match props
    case None => Leaf(Undefined)
    case Some(obj) => if "variant" in obj then obj["variant"] else Leaf(Bool(false))
  }

  /** `config?.defaultVariantSet` */
  function DefaultSetValue(config: Config): ClassValue {
    match config.defaultVariantSet
    case None => Leaf(Undefined)
    case Some(name) => Leaf(Str(name))
  }

  /** `variant && config.variantSets?.[variant]`, with `variant` the prop's choice or else the default set. */
  function ChosenSet(config: Config, props: Option<map<string, ClassValue>>): Option<seq<(string, Scalar)>> {
    var variant := Or(VariantSetProp(props), DefaultSetValue(config));
    if Truthy(variant) then Get(config.variantSets, PropertyKey(variant)) else None
  }

  /** One variant-set entry: `null` when `variants[key]` is `null`, else the option its value names. */
  function SetEntryFragment(variants: seq<(string, VariantOptions)>, key: string, value: Scalar): ClassValue
    requires Get(variants, key).Some?
  {
    match Get(variants, key).value
    case NullOptions => Leaf(Null)
    case Options(classes) => OptionClass(classes, PropertyKey(BooleanToString(Leaf(value))))
  }

  /** `variants[key]!` throws when a set entry names a variant that is not declared. */
  predicate SetKeysDeclared(variants: seq<(string, VariantOptions)>, entries: seq<(string, Scalar)>) {
    forall j :: 0 <= j < |entries| ==> Get(variants, entries[j].0).Some?
  }

  /** `getVariantSetClassNames`: one fragment per entry of the chosen set, in entry order. */
  function VariantSetFragments(variants: seq<(string, VariantOptions)>, chosen: Option<seq<(string, Scalar)>>): seq<ClassValue>
    requires chosen.Some? ==> SetKeysDeclared(variants, chosen.value)
  {
    match chosen
    case None => []
    case Some(entries) =>
      seq(|entries|, j requires 0 <= j < |entries| => SetEntryFragment(variants, entries[j].0, entries[j].1))
  }

  /** The resolver returns instead of throwing. */
  predicate Resolvable(config: Option<Config>, props: Option<map<string, ClassValue>>) {
    config.Some? && config.value.variants.Some? ==>
      var variants := config.value.variants.value;
      var chosen := ChosenSet(config.value, props);
      && NullOptionsSuppressed(variants, props)
      && (chosen.Some? ==> SetKeysDeclared(variants, chosen.value))
  }

  /** `cva(base, config)(props)` */
  function Resolve(base: ClassValue, config: Option<Config>, props: Option<Props>): string
    requires Resolvable(config, ObjectView(props))
  {
    var obj := ObjectView(props);
    var className := PropOf(obj, "class");
    if config.None? || config.value.variants.None? then Cx([base, className])
    else
      var c := config.value;
      var variants := c.variants.value;
      Cx([base,
          Nested(VariantFragments(variants, c.defaultVariants, obj)),
          Nested(CompoundFragments(c.compoundVariants, c.defaultVariants, DefinedView(props))),
          Nested(VariantSetFragments(variants, ChosenSet(c, obj))),
          className])
  }
}
