/** What the resolver promises, stated over the model in `Cva`. */
module CvaProperties {
  import opened JsValues
  import opened Joiner
  import opened CvaProps
  import opened Cva

  /** Without `config.variants` the result is the base and the `class` prop, and nothing else in the configuration is read. */
  lemma ResolveWithoutVariants(base: ClassValue, config: Option<Config>, props: Option<Props>)
    requires config.None? || config.value.variants.None?
    ensures Resolve(base, config, props) == SpaceJoin(Render(base), Render(PropOf(ObjectView(props), "class")))
  {
    CxIsRenderAll([base, PropOf(ObjectView(props), "class")]);
    RenderAllTwo(base, PropOf(ObjectView(props), "class"));
  }

  /**
    The result is the base, then the per-variant fragments in declaration order, then
    the compound fragments, then the variant-set fragments, then the `class` prop, each
    group rendered on its own and the groups space-joined in that order.
  */
  lemma ResolvePrecedence(base: ClassValue, config: Option<Config>, props: Option<Props>)
    requires config.Some? && config.value.variants.Some?
    requires Resolvable(config, ObjectView(props))
    ensures
      var c := config.value;
      var obj := ObjectView(props);
      Resolve(base, config, props) ==
        SpaceJoin(Render(base),
        SpaceJoin(RenderAll(VariantFragments(c.variants.value, c.defaultVariants, obj)),
        SpaceJoin(RenderAll(CompoundFragments(c.compoundVariants, c.defaultVariants, DefinedView(props))),
        SpaceJoin(RenderAll(VariantSetFragments(c.variants.value, ChosenSet(c, obj))),
                  Render(PropOf(obj, "class"))))))
  {
    var c := config.value;
    var obj := ObjectView(props);
    var vf := Nested(VariantFragments(c.variants.value, c.defaultVariants, obj));
    var cf := Nested(CompoundFragments(c.compoundVariants, c.defaultVariants, DefinedView(props)));
    var sf := Nested(VariantSetFragments(c.variants.value, ChosenSet(c, obj)));
    CxIsRenderAll([base, vf, cf, sf, PropOf(obj, "class")]);
    RenderAllFive(base, vf, cf, sf, PropOf(obj, "class"));
  }

  /**
    The option a declared variant selects: a `null` prop selects nothing even when a
    default exists; a boolean prop (`false` included) or a truthy prop names the option
    itself; an `undefined` or empty prop falls back to the default's key.
  */
  lemma VariantFragmentSelects(name: string, options: VariantOptions, defaults: seq<(string, Scalar)>,
                               props: Option<map<string, ClassValue>>)
    requires options.NullOptions? ==> PropOf(props, name) == Leaf(Null)
    ensures PropOf(props, name) == Leaf(Null) ==>
      VariantFragment(name, options, defaults, props) == Leaf(Null) &&
      Render(VariantFragment(name, options, defaults, props)) == ""
    ensures PropOf(props, name) != Leaf(Null) ==>
      var prop := PropOf(props, name);
      VariantFragment(name, options, defaults, props) ==
        if Truthy(prop) || (prop.Leaf? && prop.v.Bool?) then OptionClass(options.classes, PropertyKey(prop))
        else OptionClass(options.classes, PropertyKey(DefaultOf(defaults, name)))
  {
  }

  /** A prop of `false` selects the `"false"` option whatever the default is. */
  lemma FalsePropSelectsFalseOption(name: string, classes: seq<(string, ClassValue)>,
                                    defaults: seq<(string, Scalar)>, props: Option<map<string, ClassValue>>)
    requires PropOf(props, name) == Leaf(Bool(false))
    ensures VariantFragment(name, Options(classes), defaults, props) == OptionClass(classes, "false")
  {
  }

  /** An option the key does not name is `undefined`, which the joiner drops. */
  lemma MissingOptionContributesNothing(classes: seq<(string, ClassValue)>, key: string)
    requires Get(classes, key).None?
    ensures OptionClass(classes, key) == Leaf(Undefined)
    ensures Render(OptionClass(classes, key)) == ""
  {
  }

  /**
    The merged view the compound criteria read: a props entry whose value is not
    `undefined` overrides the default, and `null` and `false` override it too.
  */
  lemma MergedValueOfProps(defaults: seq<(string, Scalar)>, props: Props, key: string)
    ensures MergedValue(defaults, DefinedProps(props), key) ==
      if key in ObjectOf(props) && ObjectOf(props)[key] != Leaf(Undefined) then ObjectOf(props)[key]
      else DefaultOf(defaults, key)
  {
    DefinedIsObjectWithoutUndefined(props, key);
  }

  /** The compound classes as a plain filter over the list: every contributing compound, in declaration order. */
  function ContributingClasses(compounds: seq<CompoundVariant>, defaults: seq<(string, Scalar)>,
                               defined: map<string, ClassValue>): seq<ClassValue>
    decreases compounds
  {
    if compounds == [] then []
    else (if Contributes(compounds[0], defaults, defined) then [compounds[0].className] else [])
         + ContributingClasses(compounds[1..], defaults, defined)
  }

  lemma {:induction false} ContributingClassesAppend(xs: seq<CompoundVariant>, ys: seq<CompoundVariant>,
                                                     defaults: seq<(string, Scalar)>, defined: map<string, ClassValue>)
    ensures ContributingClasses(xs + ys, defaults, defined) ==
      ContributingClasses(xs, defaults, defined) + ContributingClasses(ys, defaults, defined)
  {
    if xs == [] {
      assert xs + ys == ys;
    } else {
      var head := if Contributes(xs[0], defaults, defined) then [xs[0].className] else [];
      var front, back := ContributingClasses(xs[1..], defaults, defined), ContributingClasses(ys, defaults, defined);
      calc {
        ContributingClasses(xs + ys, defaults, defined);
        { assert (xs + ys)[0] == xs[0]; assert (xs + ys)[1..] == xs[1..] + ys; }
        head + ContributingClasses(xs[1..] + ys, defaults, defined);
        { ContributingClassesAppend(xs[1..], ys, defaults, defined); }
        head + (front + back);
        (head + front) + back;
      }
    }
  }

  /** The `reduce` appends exactly the contributing classes, in declaration order. */
  lemma {:induction false} CompoundFragmentsAreContributing(compounds: seq<CompoundVariant>,
                                                            defaults: seq<(string, Scalar)>,
                                                            defined: map<string, ClassValue>)
    ensures CompoundFragments(compounds, defaults, defined) == ContributingClasses(compounds, defaults, defined)
    decreases |compounds|
  {
    if compounds != [] {
      var n := |compounds| - 1;
      CompoundFragmentsAreContributing(compounds[..n], defaults, defined);
      assert compounds == compounds[..n] + [compounds[n]];
      ContributingClassesAppend(compounds[..n], [compounds[n]], defaults, defined);
      assert [compounds[n]][1..] == [];
    }
  }

  /** One more compound is appended after the earlier ones exactly when it contributes. */
  lemma CompoundFragmentsSnoc(compounds: seq<CompoundVariant>, compound: CompoundVariant,
                              defaults: seq<(string, Scalar)>, defined: map<string, ClassValue>)
    ensures CompoundFragments(compounds + [compound], defaults, defined) ==
      CompoundFragments(compounds, defaults, defined) +
      (if Contributes(compound, defaults, defined) then [compound.className] else [])
  {
    assert (compounds + [compound])[..|compounds|] == compounds;
  }

  /** Folding over two lists in turn is folding over each: every matching compound contributes, none replaces another. */
  lemma CompoundFragmentsAppend(xs: seq<CompoundVariant>, ys: seq<CompoundVariant>,
                                defaults: seq<(string, Scalar)>, defined: map<string, ClassValue>)
    ensures CompoundFragments(xs + ys, defaults, defined) ==
      CompoundFragments(xs, defaults, defined) + CompoundFragments(ys, defaults, defined)
  {
    CompoundFragmentsAreContributing(xs + ys, defaults, defined);
    CompoundFragmentsAreContributing(xs, defaults, defined);
    CompoundFragmentsAreContributing(ys, defaults, defined);
    ContributingClassesAppend(xs, ys, defaults, defined);
  }

  /** A compound whose class is `null` or missing never contributes, whatever its criteria. */
  lemma NullishCompoundIgnored(xs: seq<CompoundVariant>, compound: CompoundVariant, ys: seq<CompoundVariant>,
                               defaults: seq<(string, Scalar)>, defined: map<string, ClassValue>)
    requires IsNullish(compound.className)
    ensures CompoundFragments(xs + [compound] + ys, defaults, defined) == CompoundFragments(xs + ys, defaults, defined)
  {
    CompoundFragmentsAppend(xs + [compound], ys, defaults, defined);
    CompoundFragmentsAppend(xs, [compound], defaults, defined);
    CompoundFragmentsAppend(xs, ys, defaults, defined);
    assert [compound][..0] == [];
  }

  /**
    The chosen variant set: `props.variant` when it is truthy, else a non-empty
    `defaultVariantSet`; an unknown name chooses nothing.
  */
  lemma ChosenSetSpec(config: Config, props: Option<map<string, ClassValue>>)
    ensures ChosenSet(config, props) ==
      if props.Some? && "variant" in props.value && Truthy(props.value["variant"])
      then Get(config.variantSets, PropertyKey(props.value["variant"]))
      else if config.defaultVariantSet.Some? && config.defaultVariantSet.value != ""
      then Get(config.variantSets, config.defaultVariantSet.value)
      else None
  {
  }

  /**
    A set entry whose value is a boolean or a non-empty string resolves exactly as the
    same value given as that variant's prop would.
  */
  lemma VariantSetEntryAsProp(variants: seq<(string, VariantOptions)>, defaults: seq<(string, Scalar)>,
                              key: string, value: Scalar)
    requires Get(variants, key).Some? && Get(variants, key).value.Options?
    requires IsTruthy(value) || value.Bool?
    ensures SetEntryFragment(variants, key, value) ==
      VariantFragment(key, Get(variants, key).value, defaults, Some(map[key := Leaf(value)]))
  {
  }

  /**
    A set entry whose value is `undefined`, `null` or `""` does not behave like a prop:
    it neither opts out nor falls back to a default, but reads the option named by its
    string form (`"undefined"`, `"null"`, `""`).
  */
  lemma VariantSetEntryNoFallback(variants: seq<(string, VariantOptions)>, key: string, value: Scalar)
    requires Get(variants, key).Some? && Get(variants, key).value.Options?
    requires !IsTruthy(value) && !value.Bool?
    ensures SetEntryFragment(variants, key, value) ==
      OptionClass(Get(variants, key).value.classes, ScalarToString(value))
  {
  }

  /**
    A set entry that names a variant whose option map is `null` contributes `null`,
    which renders as nothing, whatever the entry's value.
  */
  lemma SetEntryOnNullVariant(variants: seq<(string, VariantOptions)>, key: string, value: Scalar)
    requires Get(variants, key) == Some(NullOptions)
    ensures SetEntryFragment(variants, key, value) == Leaf(Null)
    ensures Render(SetEntryFragment(variants, key, value)) == ""
  {
  }

  /**
    The props path has no such test on the schema entry: a declared variant whose option
    map is `null`, given any prop other than `null`, makes the resolver throw.
  */
  lemma NullVariantWithPropThrows(config: Config, props: Option<map<string, ClassValue>>, i: nat)
    requires config.variants.Some? && i < |config.variants.value|
    requires config.variants.value[i].1.NullOptions?
    requires PropOf(props, config.variants.value[i].0) != Leaf(Null)
    ensures !Resolvable(Some(config), props)
  {
  }

  /**
    In a well-formed configuration a set entry reads the very option map that the
    per-variant step uses for the same variant.
  */
  lemma SetEntryReadsDeclaredVariant(config: Config, i: nat, value: Scalar)
    requires ConfigWellFormed(config) && config.variants.Some?
    requires i < |config.variants.value| && config.variants.value[i].1.Options?
    ensures Get(config.variants.value, config.variants.value[i].0).Some?
    ensures SetEntryFragment(config.variants.value, config.variants.value[i].0, value) ==
      OptionClass(config.variants.value[i].1.classes, PropertyKey(BooleanToString(Leaf(value))))
  {
    GetDistinct(config.variants.value, i);
  }

  /** The order in which the caller's props object lists its keys does not change the result. */
  lemma ResolveIgnoresPropsOrder(base: ClassValue, config: Option<Config>, p1: Props, p2: Props)
    requires forall e :: e in p1 <==> e in p2
    requires Resolvable(config, ObjectView(Some(p1)))
    ensures Resolvable(config, ObjectView(Some(p2)))
    ensures Resolve(base, config, Some(p1)) == Resolve(base, config, Some(p2))
  {
    SameEntriesSameObject(p1, p2);
  }

  const EmptyProps: Props := []

  /** Calling without props is calling with `{}`. */
  lemma AbsentPropsAreEmpty(base: ClassValue, config: Option<Config>)
    requires Resolvable(config, ObjectView(None))
    ensures Resolvable(config, ObjectView(Some(EmptyProps)))
    ensures Resolve(base, config, None) == Resolve(base, config, Some(EmptyProps))
  {
    var absent, empty := ObjectView(None), ObjectView(Some(EmptyProps));
    assert empty == Some(map[]);
    assert DefinedView(Some(EmptyProps)) == map[];
    assert forall key :: PropOf(absent, key) == PropOf(empty, key);
    if config.Some? && config.value.variants.Some? {
      var c := config.value;
      assert ChosenSet(c, absent) == ChosenSet(c, empty);
      assert VariantFragments(c.variants.value, c.defaultVariants, absent)
          == VariantFragments(c.variants.value, c.defaultVariants, empty);
    }
  }

  lemma {:induction false} CompoundFragmentsIgnoreKey(compounds: seq<CompoundVariant>, defaults: seq<(string, Scalar)>,
                                                      d1: map<string, ClassValue>, d2: map<string, ClassValue>, key: string)
    requires forall k :: k != key ==> (k in d1 <==> k in d2)
    requires forall k :: k != key && k in d1 ==> d1[k] == d2[k]
    requires forall i, j :: 0 <= i < |compounds| && 0 <= j < |compounds[i].criteria| ==> compounds[i].criteria[j].0 != key
    ensures CompoundFragments(compounds, defaults, d1) == CompoundFragments(compounds, defaults, d2)
    decreases |compounds|
  {
    if compounds != [] {
      var n := |compounds| - 1;
      CompoundFragmentsIgnoreKey(compounds[..n], defaults, d1, d2, key);
      var compound := compounds[n];
      forall j | 0 <= j < |compound.criteria|
        ensures MergedValue(defaults, d1, compound.criteria[j].0) == MergedValue(defaults, d2, compound.criteria[j].0)
      {
        assert compound.criteria[j].0 != key;
      }
      assert Matches(compound, defaults, d1) == Matches(compound, defaults, d2);
    }
  }

  /**
    A prop that names no declared variant, is neither `class` nor `variant`, and is named
    by no compound criterion changes nothing: such props are read but never matched.
  */
  lemma UndeclaredPropIgnored(base: ClassValue, config: Config, props: Props, key: string, value: ClassValue)
    requires config.variants.Some?
    requires forall i :: 0 <= i < |props| ==> props[i].0 != key
    requires key != "class" && key != "variant"
    requires forall i :: 0 <= i < |config.variants.value| ==> config.variants.value[i].0 != key
    requires forall i, j :: 0 <= i < |config.compoundVariants| && 0 <= j < |config.compoundVariants[i].criteria| ==>
      config.compoundVariants[i].criteria[j].0 != key
    requires Resolvable(Some(config), ObjectView(Some(props)))
    ensures DistinctKeys(props + [(key, value)])
    ensures Resolvable(Some(config), ObjectView(Some(props + [(key, value)])))
    ensures Resolve(base, Some(config), Some(props + [(key, value)])) == Resolve(base, Some(config), Some(props))
  {
    var bigger: Props := props + [(key, value)];
    assert bigger[..|props|] == props;
    var o1, o2 := ObjectView(Some(props)), ObjectView(Some(bigger));
    assert o2 == Some(o1.value[key := value]);
    var variants := config.variants.value;
    forall i | 0 <= i < |variants|
      ensures PropOf(o1, variants[i].0) == PropOf(o2, variants[i].0)
    {
    }
    assert VariantSetProp(o1) == VariantSetProp(o2);
    assert ChosenSet(config, o1) == ChosenSet(config, o2);
    var v1 := VariantFragments(variants, config.defaultVariants, o1);
    var v2 := VariantFragments(variants, config.defaultVariants, o2);
    assert v1 == v2;
    CompoundFragmentsIgnoreKey(config.compoundVariants, config.defaultVariants,
                               DefinedView(Some(props)), DefinedView(Some(bigger)), key);
  }
}
