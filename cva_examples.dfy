/**
  Concrete resolutions: a size variant with a default, a compound variant, and a variant set.
  Each example is proved in three steps: the groups each step of the resolver produces, the
  result as those groups space-joined, and the text that joining writes.
*/
module CvaExamples {
  import opened JsValues
  import opened Joiner
  import opened CvaProps
  import opened Cva
  import opened CvaProperties

  function Text(s: string): ClassValue {
    Leaf(Str(s))
  }

  /** The result assembled from the groups, for a call without a `class` prop. */
  lemma ResolveFromGroups(base: ClassValue, config: Config, props: Option<Props>, vs: string, cs: string, ss: string)
    requires config.variants.Some?
    requires Resolvable(Some(config), ObjectView(props))
    requires PropOf(ObjectView(props), "class") == Leaf(Undefined)
    requires RenderAll(VariantFragments(config.variants.value, config.defaultVariants, ObjectView(props))) == vs
    requires RenderAll(CompoundFragments(config.compoundVariants, config.defaultVariants, DefinedView(props))) == cs
    requires RenderAll(VariantSetFragments(config.variants.value, ChosenSet(config, ObjectView(props)))) == ss
    ensures Resolve(base, Some(config), props) == SpaceJoin(Render(base), SpaceJoin(vs, SpaceJoin(cs, ss)))
  {
    ResolvePrecedence(base, Some(config), props);
  }

  /** Two truthy strings render space-joined. */
  lemma RenderTwoTexts(a: string, b: string)
    requires a != "" && b != ""
    ensures RenderAll([Text(a), Text(b)]) == a + " " + b
  {
    RenderAllTwo(Text(a), Text(b));
  }

  /** One truthy string renders as itself. */
  lemma RenderOneText(a: string)
    requires a != ""
    ensures RenderAll([Text(a)]) == a
  {
    RenderAllOne(Text(a));
  }

  /** `{ variants: { size: { sm: "text-sm", lg: "text-lg" } }, defaultVariants: { size: "sm" } }` */
  const SizeConfig := Config(
    Some([("size", Options([("sm", Text("text-sm")), ("lg", Text("text-lg"))]))]),
    [("size", Str("sm"))], [], [], None)

  const NoProps: Option<Props> := None
  const LargeProps: Option<Props> := Some([("size", Text("lg"))])
  const NullSizeProps: Option<Props> := Some([("size", Leaf(Null))])

  lemma NoPropsGroups()
    ensures NullOptionsSuppressed(SizeConfig.variants.value, ObjectView(NoProps))
    ensures PropOf(ObjectView(NoProps), "class") == Leaf(Undefined)
    ensures VariantFragments(SizeConfig.variants.value, SizeConfig.defaultVariants, ObjectView(NoProps)) == [Text("text-sm")]
    ensures CompoundFragments(SizeConfig.compoundVariants, SizeConfig.defaultVariants, DefinedView(NoProps)) == []
    ensures ChosenSet(SizeConfig, ObjectView(NoProps)) == None
  {
    var vars := SizeConfig.variants.value;
    assert VariantFragment("size", vars[0].1, SizeConfig.defaultVariants, ObjectView(NoProps)) == Text("text-sm");
  }

  lemma SizeDefaultShape()
    ensures Resolve(Text("base"), Some(SizeConfig), NoProps) ==
      SpaceJoin(Render(Text("base")), SpaceJoin(RenderAll([Text("text-sm")]), SpaceJoin(RenderAll([]), RenderAll([]))))
  {
    NoPropsGroups();
    ResolveFromGroups(Text("base"), SizeConfig, NoProps, RenderAll([Text("text-sm")]), RenderAll([]), RenderAll([]));
  }

  lemma SizeDefaultText()
    ensures SpaceJoin(Render(Text("base")), SpaceJoin(RenderAll([Text("text-sm")]), SpaceJoin(RenderAll([]), RenderAll([]))))
            == "base text-sm"
  {
    RenderOneText("text-sm");
  }

  /** Without props the default size applies. */
  lemma SizeDefaultExample()
    ensures Resolve(Text("base"), Some(SizeConfig), NoProps) == "base text-sm"
  {
    SizeDefaultShape();
    SizeDefaultText();
  }

  lemma LargeGroups()
    ensures NullOptionsSuppressed(SizeConfig.variants.value, ObjectView(LargeProps))
    ensures PropOf(ObjectView(LargeProps), "class") == Leaf(Undefined)
    ensures VariantFragments(SizeConfig.variants.value, SizeConfig.defaultVariants, ObjectView(LargeProps)) == [Text("text-lg")]
    ensures CompoundFragments(SizeConfig.compoundVariants, SizeConfig.defaultVariants, DefinedView(LargeProps)) == []
    ensures ChosenSet(SizeConfig, ObjectView(LargeProps)) == None
  {
    assert LargeProps.value[..0] == [];
    var obj := ObjectView(LargeProps);
    assert obj == Some(map["size" := Text("lg")]);
    var vars := SizeConfig.variants.value;
    assert VariantSetProp(obj) == Leaf(Bool(false));
    assert VariantFragment("size", vars[0].1, SizeConfig.defaultVariants, obj) == Text("text-lg");
  }

  lemma SizeExplicitShape()
    ensures Resolve(Text("base"), Some(SizeConfig), LargeProps) ==
      SpaceJoin(Render(Text("base")), SpaceJoin(RenderAll([Text("text-lg")]), SpaceJoin(RenderAll([]), RenderAll([]))))
  {
    LargeGroups();
    ResolveFromGroups(Text("base"), SizeConfig, LargeProps, RenderAll([Text("text-lg")]), RenderAll([]), RenderAll([]));
  }

  lemma SizeExplicitText()
    ensures SpaceJoin(Render(Text("base")), SpaceJoin(RenderAll([Text("text-lg")]), SpaceJoin(RenderAll([]), RenderAll([]))))
            == "base text-lg"
  {
    RenderOneText("text-lg");
  }

  /** An explicit size wins over the default. */
  lemma SizeExplicitExample()
    ensures Resolve(Text("base"), Some(SizeConfig), LargeProps) == "base text-lg"
  {
    SizeExplicitShape();
    SizeExplicitText();
  }

  lemma NullSizeGroups()
    ensures NullOptionsSuppressed(SizeConfig.variants.value, ObjectView(NullSizeProps))
    ensures PropOf(ObjectView(NullSizeProps), "class") == Leaf(Undefined)
    ensures VariantFragments(SizeConfig.variants.value, SizeConfig.defaultVariants, ObjectView(NullSizeProps)) == [Leaf(Null)]
    ensures CompoundFragments(SizeConfig.compoundVariants, SizeConfig.defaultVariants, DefinedView(NullSizeProps)) == []
    ensures ChosenSet(SizeConfig, ObjectView(NullSizeProps)) == None
  {
    assert NullSizeProps.value[..0] == [];
    var obj := ObjectView(NullSizeProps);
    assert obj == Some(map["size" := Leaf(Null)]);
    var vars := SizeConfig.variants.value;
    assert VariantSetProp(obj) == Leaf(Bool(false));
    assert VariantFragment("size", vars[0].1, SizeConfig.defaultVariants, obj) == Leaf(Null);
  }

  lemma SizeNullShape()
    ensures Resolve(Text("base"), Some(SizeConfig), NullSizeProps) ==
      SpaceJoin(Render(Text("base")), SpaceJoin(RenderAll([Leaf(Null)]), SpaceJoin(RenderAll([]), RenderAll([]))))
  {
    NullSizeGroups();
    ResolveFromGroups(Text("base"), SizeConfig, NullSizeProps, RenderAll([Leaf(Null)]), RenderAll([]), RenderAll([]));
  }

  lemma SizeNullText()
    ensures SpaceJoin(Render(Text("base")), SpaceJoin(RenderAll([Leaf(Null)]), SpaceJoin(RenderAll([]), RenderAll([]))))
            == "base"
  {
    assert [Leaf(Null)][1..] == [];
  }

  /** A `null` size suppresses the default. */
  lemma SizeNullExample()
    ensures Resolve(Text("base"), Some(SizeConfig), NullSizeProps) == "base"
  {
    SizeNullShape();
    SizeNullText();
  }

  /** `{ variants: { color: { red: "c-red" }, size: { lg: "s-lg" } }, compoundVariants: [{ color: "red", size: "lg", class: "red-lg" }], variantSets: { fancy: { color: "red", size: "lg" } } }` */
  const ColorSizeConfig := Config(
    Some([("color", Options([("red", Text("c-red"))])), ("size", Options([("lg", Text("s-lg"))]))]),
    [],
    [CompoundVariant([("color", Str("red")), ("size", Str("lg"))], Text("red-lg"))],
    [("fancy", [("color", Str("red")), ("size", Str("lg"))])],
    None)

  const RedLargeProps: Option<Props> := Some([("color", Text("red")), ("size", Text("lg"))])
  const RedProps: Option<Props> := Some([("color", Text("red"))])
  const FancyProps: Option<Props> := Some([("variant", Text("fancy"))])

  /** The two variant fragments `color` and `size` read from an object. */
  lemma ColorSizeFragments(obj: Option<map<string, ClassValue>>)
    ensures NullOptionsSuppressed(ColorSizeConfig.variants.value, obj)
    ensures VariantFragments(ColorSizeConfig.variants.value, [], obj) ==
      [VariantFragment("color", Options([("red", Text("c-red"))]), [], obj),
       VariantFragment("size", Options([("lg", Text("s-lg"))]), [], obj)]
  {
  }

  /** The one compound of `ColorSizeConfig` contributes exactly when it matches. */
  lemma ColorSizeCompound(defined: map<string, ClassValue>)
    ensures CompoundFragments(ColorSizeConfig.compoundVariants, [], defined) ==
      if Matches(ColorSizeConfig.compoundVariants[0], [], defined) then [Text("red-lg")] else []
  {
    CompoundFragmentsSnoc([], ColorSizeConfig.compoundVariants[0], [], defined);
    assert [] + [ColorSizeConfig.compoundVariants[0]] == ColorSizeConfig.compoundVariants;
  }

  lemma RedLargeObject()
    ensures ObjectView(RedLargeProps) == Some(map["color" := Text("red"), "size" := Text("lg")])
    ensures DefinedView(RedLargeProps) == map["color" := Text("red"), "size" := Text("lg")]
  {
    var p := RedLargeProps.value;
    var first: seq<(string, ClassValue)> := [("color", Text("red"))];
    assert p[..1] == first;
    assert first[..0] == [];
    assert ObjectOf(first) == map["color" := Text("red")];
    assert DefinedProps(first) == map["color" := Text("red")];
    assert ObjectOf(p) == ObjectOf(first)["size" := Text("lg")];
    assert DefinedProps(p) == DefinedProps(first)["size" := Text("lg")];
  }

  lemma RedLargeMatches()
    ensures Matches(ColorSizeConfig.compoundVariants[0], [], DefinedView(RedLargeProps))
  {
    RedLargeObject();
    var defined := DefinedView(RedLargeProps);
    assert MergedValue([], defined, "color") == Text("red");
    assert MergedValue([], defined, "size") == Text("lg");
  }

  lemma RedLargeVariants()
    ensures NullOptionsSuppressed(ColorSizeConfig.variants.value, ObjectView(RedLargeProps))
    ensures VariantFragments(ColorSizeConfig.variants.value, [], ObjectView(RedLargeProps)) == [Text("c-red"), Text("s-lg")]
  {
    RedLargeObject();
    ColorSizeFragments(ObjectView(RedLargeProps));
  }

  lemma RedLargeCompounds()
    ensures CompoundFragments(ColorSizeConfig.compoundVariants, [], DefinedView(RedLargeProps)) == [Text("red-lg")]
  {
    RedLargeMatches();
    ColorSizeCompound(DefinedView(RedLargeProps));
  }

  lemma RedLargeGroups()
    ensures NullOptionsSuppressed(ColorSizeConfig.variants.value, ObjectView(RedLargeProps))
    ensures PropOf(ObjectView(RedLargeProps), "class") == Leaf(Undefined)
    ensures VariantFragments(ColorSizeConfig.variants.value, [], ObjectView(RedLargeProps)) == [Text("c-red"), Text("s-lg")]
    ensures CompoundFragments(ColorSizeConfig.compoundVariants, [], DefinedView(RedLargeProps)) == [Text("red-lg")]
    ensures ChosenSet(ColorSizeConfig, ObjectView(RedLargeProps)) == None
  {
    RedLargeObject();
    RedLargeVariants();
    RedLargeCompounds();
    assert VariantSetProp(ObjectView(RedLargeProps)) == Leaf(Bool(false));
  }

  lemma CompoundAppliesShape()
    ensures Resolve(Leaf(Undefined), Some(ColorSizeConfig), RedLargeProps) ==
      SpaceJoin(Render(Leaf(Undefined)),
        SpaceJoin(RenderAll([Text("c-red"), Text("s-lg")]), SpaceJoin(RenderAll([Text("red-lg")]), RenderAll([]))))
  {
    RedLargeGroups();
    ResolveFromGroups(Leaf(Undefined), ColorSizeConfig, RedLargeProps,
                      RenderAll([Text("c-red"), Text("s-lg")]), RenderAll([Text("red-lg")]), RenderAll([]));
  }

  lemma CompoundAppliesText()
    ensures SpaceJoin(Render(Leaf(Undefined)),
        SpaceJoin(RenderAll([Text("c-red"), Text("s-lg")]), SpaceJoin(RenderAll([Text("red-lg")]), RenderAll([]))))
      == "c-red s-lg red-lg"
  {
    RenderTwoTexts("c-red", "s-lg");
    RenderOneText("red-lg");
    ThreeWords("c-red", "s-lg", "red-lg");
    CompoundAppliesWords();
  }

  lemma ThreeWords(a: string, b: string, c: string)
    requires a != "" && b != "" && c != ""
    ensures SpaceJoin("", SpaceJoin(a + " " + b, SpaceJoin(c, ""))) == a + " " + b + " " + c
  {
  }

  lemma CompoundAppliesWords()
    ensures "c-red" + " " + "s-lg" + " " + "red-lg" == "c-red s-lg red-lg"
  {
  }

  /** Both criteria hold, so the compound class follows the variant classes. */
  lemma CompoundAppliesExample()
    ensures Resolve(Leaf(Undefined), Some(ColorSizeConfig), RedLargeProps) == "c-red s-lg red-lg"
  {
    CompoundAppliesShape();
    CompoundAppliesText();
  }

  lemma RedObject()
    ensures ObjectView(RedProps) == Some(map["color" := Text("red")])
    ensures DefinedView(RedProps) == map["color" := Text("red")]
  {
    assert RedProps.value[..0] == [];
  }

  lemma RedVariants()
    ensures NullOptionsSuppressed(ColorSizeConfig.variants.value, ObjectView(RedProps))
    ensures VariantFragments(ColorSizeConfig.variants.value, [], ObjectView(RedProps)) == [Text("c-red"), Leaf(Undefined)]
  {
    RedObject();
    var obj := ObjectView(RedProps);
    ColorSizeFragments(obj);
    assert PropOf(obj, "size") == Leaf(Undefined);
  }

  lemma RedCompounds()
    ensures CompoundFragments(ColorSizeConfig.compoundVariants, [], DefinedView(RedProps)) == []
  {
    RedObject();
    var defined := DefinedView(RedProps);
    ColorSizeCompound(defined);
    assert MergedValue([], defined, ColorSizeConfig.compoundVariants[0].criteria[1].0) == Leaf(Undefined);
  }

  lemma RedGroups()
    ensures NullOptionsSuppressed(ColorSizeConfig.variants.value, ObjectView(RedProps))
    ensures PropOf(ObjectView(RedProps), "class") == Leaf(Undefined)
    ensures VariantFragments(ColorSizeConfig.variants.value, [], ObjectView(RedProps)) == [Text("c-red"), Leaf(Undefined)]
    ensures CompoundFragments(ColorSizeConfig.compoundVariants, [], DefinedView(RedProps)) == []
    ensures ChosenSet(ColorSizeConfig, ObjectView(RedProps)) == None
  {
    RedObject();
    RedVariants();
    RedCompounds();
    assert VariantSetProp(ObjectView(RedProps)) == Leaf(Bool(false));
  }

  lemma CompoundMissesShape()
    ensures Resolve(Leaf(Undefined), Some(ColorSizeConfig), RedProps) ==
      SpaceJoin(Render(Leaf(Undefined)),
        SpaceJoin(RenderAll([Text("c-red"), Leaf(Undefined)]), SpaceJoin(RenderAll([]), RenderAll([]))))
  {
    RedGroups();
    ResolveFromGroups(Leaf(Undefined), ColorSizeConfig, RedProps,
                      RenderAll([Text("c-red"), Leaf(Undefined)]), RenderAll([]), RenderAll([]));
  }

  lemma CompoundMissesText()
    ensures SpaceJoin(Render(Leaf(Undefined)),
        SpaceJoin(RenderAll([Text("c-red"), Leaf(Undefined)]), SpaceJoin(RenderAll([]), RenderAll([]))))
      == "c-red"
  {
    assert [Text("c-red"), Leaf(Undefined)][1..] == [Leaf(Undefined)];
    assert [Leaf(Undefined)][1..] == [];
  }

  /** `size` has neither a prop nor a default, so the compound does not apply. */
  lemma CompoundMissesExample()
    ensures Resolve(Leaf(Undefined), Some(ColorSizeConfig), RedProps) == "c-red"
  {
    CompoundMissesShape();
    CompoundMissesText();
  }

  /** The entries of the set `fancy`. */
  const FancySet: seq<(string, Scalar)> := [("color", Str("red")), ("size", Str("lg"))]

  lemma FancySetFragments()
    ensures SetKeysDeclared(ColorSizeConfig.variants.value, FancySet)
    ensures VariantSetFragments(ColorSizeConfig.variants.value, Some(FancySet)) == [Text("c-red"), Text("s-lg")]
  {
    var vars := ColorSizeConfig.variants.value;
    assert Get(vars, "color") == Some(vars[0].1);
    assert Get(vars, "size") == Some(vars[1].1);
    assert SetEntryFragment(vars, "color", Str("red")) == Text("c-red");
    assert SetEntryFragment(vars, "size", Str("lg")) == Text("s-lg");
  }

  lemma FancyObject()
    ensures ObjectView(FancyProps) == Some(map["variant" := Text("fancy")])
    ensures DefinedView(FancyProps) == map["variant" := Text("fancy")]
  {
    assert FancyProps.value[..0] == [];
  }

  lemma FancyVariants()
    ensures NullOptionsSuppressed(ColorSizeConfig.variants.value, ObjectView(FancyProps))
    ensures VariantFragments(ColorSizeConfig.variants.value, [], ObjectView(FancyProps)) == [Leaf(Undefined), Leaf(Undefined)]
  {
    FancyObject();
    var obj := ObjectView(FancyProps);
    ColorSizeFragments(obj);
    assert PropOf(obj, "color") == Leaf(Undefined);
    assert PropOf(obj, "size") == Leaf(Undefined);
  }

  lemma FancyCompounds()
    ensures CompoundFragments(ColorSizeConfig.compoundVariants, [], DefinedView(FancyProps)) == []
  {
    FancyObject();
    var defined := DefinedView(FancyProps);
    ColorSizeCompound(defined);
    assert MergedValue([], defined, ColorSizeConfig.compoundVariants[0].criteria[0].0) == Leaf(Undefined);
  }

  lemma FancyGroups()
    ensures NullOptionsSuppressed(ColorSizeConfig.variants.value, ObjectView(FancyProps))
    ensures PropOf(ObjectView(FancyProps), "class") == Leaf(Undefined)
    ensures VariantFragments(ColorSizeConfig.variants.value, [], ObjectView(FancyProps)) == [Leaf(Undefined), Leaf(Undefined)]
    ensures CompoundFragments(ColorSizeConfig.compoundVariants, [], DefinedView(FancyProps)) == []
    ensures ChosenSet(ColorSizeConfig, ObjectView(FancyProps)) == Some(FancySet)
  {
    FancyObject();
    FancyVariants();
    FancyCompounds();
    assert VariantSetProp(ObjectView(FancyProps)) == Text("fancy");
  }

  lemma VariantSetShape()
    ensures Resolve(Leaf(Undefined), Some(ColorSizeConfig), FancyProps) ==
      SpaceJoin(Render(Leaf(Undefined)),
        SpaceJoin(RenderAll([Leaf(Undefined), Leaf(Undefined)]), SpaceJoin(RenderAll([]), RenderAll([Text("c-red"), Text("s-lg")]))))
  {
    FancyGroups();
    FancySetFragments();
    ResolveFromGroups(Leaf(Undefined), ColorSizeConfig, FancyProps,
                      RenderAll([Leaf(Undefined), Leaf(Undefined)]), RenderAll([]), RenderAll([Text("c-red"), Text("s-lg")]));
  }

  lemma VariantSetText()
    ensures SpaceJoin(Render(Leaf(Undefined)),
        SpaceJoin(RenderAll([Leaf(Undefined), Leaf(Undefined)]), SpaceJoin(RenderAll([]), RenderAll([Text("c-red"), Text("s-lg")]))))
      == "c-red s-lg"
  {
    assert [Leaf(Undefined), Leaf(Undefined)][1..] == [Leaf(Undefined)];
    assert [Leaf(Undefined)][1..] == [];
    RenderTwoTexts("c-red", "s-lg");
  }

  /**
    Choosing the set `fancy` yields the fragments its entries name, after the compound
    group; the compound does not see the set's values and so does not apply.
  */
  lemma VariantSetExample()
    ensures Resolve(Leaf(Undefined), Some(ColorSizeConfig), FancyProps) == "c-red s-lg"
  {
    VariantSetShape();
    VariantSetText();
  }

  /** `SizeConfig` with the set `big: { size: "lg" }` added. */
  const SizeSetConfig := Config(
    Some([("size", Options([("sm", Text("text-sm")), ("lg", Text("text-lg"))]))]),
    [("size", Str("sm"))], [], [("big", [("size", Str("lg"))])], None)

  const BigProps: Option<Props> := Some([("variant", Text("big"))])

  lemma BigGroups()
    ensures NullOptionsSuppressed(SizeSetConfig.variants.value, ObjectView(BigProps))
    ensures PropOf(ObjectView(BigProps), "class") == Leaf(Undefined)
    ensures VariantFragments(SizeSetConfig.variants.value, SizeSetConfig.defaultVariants, ObjectView(BigProps)) == [Text("text-sm")]
    ensures CompoundFragments(SizeSetConfig.compoundVariants, SizeSetConfig.defaultVariants, DefinedView(BigProps)) == []
    ensures ChosenSet(SizeSetConfig, ObjectView(BigProps)) == Some([("size", Str("lg"))])
    ensures SetKeysDeclared(SizeSetConfig.variants.value, [("size", Str("lg"))])
    ensures VariantSetFragments(SizeSetConfig.variants.value, Some([("size", Str("lg"))])) == [Text("text-lg")]
  {
    assert BigProps.value[..0] == [];
    var obj := ObjectView(BigProps);
    assert obj == Some(map["variant" := Text("big")]);
    var vars := SizeSetConfig.variants.value;
    assert VariantSetProp(obj) == Text("big");
    assert VariantFragment("size", vars[0].1, SizeSetConfig.defaultVariants, obj) == Text("text-sm");
    assert Get(vars, "size") == Some(vars[0].1);
    assert SetEntryFragment(vars, "size", Str("lg")) == Text("text-lg");
  }

  lemma DefaultBesideSetShape()
    ensures Resolve(Text("base"), Some(SizeSetConfig), BigProps) ==
      SpaceJoin(Render(Text("base")), SpaceJoin(RenderAll([Text("text-sm")]), SpaceJoin(RenderAll([]), RenderAll([Text("text-lg")]))))
  {
    BigGroups();
    ResolveFromGroups(Text("base"), SizeSetConfig, BigProps, RenderAll([Text("text-sm")]), RenderAll([]), RenderAll([Text("text-lg")]));
  }

  lemma DefaultBesideSetText()
    ensures SpaceJoin(Render(Text("base")), SpaceJoin(RenderAll([Text("text-sm")]), SpaceJoin(RenderAll([]), RenderAll([Text("text-lg")]))))
            == "base text-sm text-lg"
  {
    RenderOneText("text-sm");
    RenderOneText("text-lg");
  }

  /**
    A set does not take the place of the per-variant step: the default `size` still
    applies, and the set's `size` option follows it.
  */
  lemma DefaultBesideSetExample()
    ensures Resolve(Text("base"), Some(SizeSetConfig), BigProps) == "base text-sm text-lg"
  {
    DefaultBesideSetShape();
    DefaultBesideSetText();
  }
}
