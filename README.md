# cva-kv class-name composer, modelled in Dafny

cva-kv composes CSS class strings. It has two parts:

- `cx(...classes)` flattens a list of class values nested to any depth, drops the falsy leaves, and joins the rest with single spaces.
- `cva(base, config)` returns a resolver. The resolver turns a props object into one class string, built from these groups in order:
  1. the base;
  2. one fragment per declared variant, chosen by the prop or else by the default (a `null` prop opts out);
  3. the classes of the compound variants whose criteria all match;
  4. the fragments of a named variant set;
  5. the `class` prop.

The model is split into these modules:

- `JsValues` (`js_values.dfy`): the JavaScript semantics the library relies on.
  - Primitive values: `undefined`, `null`, booleans and strings.
  - Arrays nested to any depth.
  - Truthiness, `||`, `String(x)` as a property key, and `Array.prototype.join`.
  - `booleanToString`.
  - Reading one key of a plain object held as an entry list.
- `Joiner` (`joiner.dfy`): `cx`, written as flatten, then filter, then join.
  - It is proved equal to a structural reference `RenderAll`.
  - It is proved to be a homomorphism onto space-joined strings.
- `CvaProps` (`props.dfy`): a props object is its list of entries, with distinct keys, in enumeration order.
  - `ObjectOf` is the object those entries describe.
  - `PropsWithoutUndefined` is an imperative method. It grows a map in a loop, just as the source's `reduce` mutates its accumulator.
  - That method is proved against the fold `DefinedProps`.
- `Cva` (`cva.dfy`): the resolver, in these functions:
  - the per-variant `map` (`VariantFragments`);
  - the compound `reduce` (`CompoundFragments`);
  - the variant-set choice and lookup (`ChosenSet`, `VariantSetFragments`);
  - the final assembly (`Resolve`).
  - The two ways the resolver can throw are preconditions, gathered in `Resolvable`.
- `CvaProperties` (`cva_properties.dfy`): what the resolver promises, as lemmas over the `Cva` model.
- `CvaExamples` (`cva_examples.dfy`): concrete resolutions, each proved to produce its exact output string.

Objects appear as entry lists, so key order is explicit:

- `config.variants`, `defaultVariants`, each option map, each compound, `variantSets` and each set are `seq<(string, V)>`.
- A lookup reads the first entry with the key. Real objects have distinct keys, so this is the only entry.

One might expect a variant set to act exactly as its entries passed as props. The code differs from that in four ways, and the model follows the code:

- A set value that is `undefined`, `null` or `""` does not fall back to the default, and does not opt out. It reads the option named by its string form (`VariantSetEntryNoFallback`).
- Compound criteria read the props and the defaults only. They never see a set's values.
  - `CompoundAppliesExample` yields `"c-red s-lg red-lg"` when the props are given directly.
  - `VariantSetExample` yields `"c-red s-lg"` when the same values come from a set.
- Set fragments come after the compound fragments, not in the place of the variant fragments. A default for a variant that the chosen set also names still applies: `DefaultBesideSetExample` yields `"base text-sm text-lg"`.
- The `null` test in the set path is on the schema entry `variants[key]`, not on the value. A set entry for a variant whose option map is `null` contributes nothing (`SetEntryOnNullVariant`), while any non-`null` prop for that variant makes the resolver throw (`NullVariantWithPropThrows`).

For boolean and non-empty string values the two paths do agree (`VariantSetEntryAsProp`).

The resolver is a pure function of `base`, `config` and `props`. No state survives a call. `Resolve` is a Dafny function, and the one method, `PropsWithoutUndefined`, only fills a map it creates itself; so determinism needs no lemma.

## Model

| member | source | states |
|---|---|---|
| `JsValues.BooleanToString` | src/index.ts:13-14 | A boolean becomes the string `"true"` or `"false"`; any non-boolean input comes back unchanged. So the result is never a boolean, it reads the same property key as its input, and it is truthy exactly when the input is truthy or is `false`. |
| `JsValues.Or` | src/index.ts:75-78 | The short-circuit disjunction yields one of its two operands, and the result is truthy exactly when either operand is. When the left operand is truthy it is the result; otherwise the right operand is. |
| `JsValues.GetDistinct` | src/index.ts:80 | In an object with distinct keys, reading the key of an entry yields that entry's value. |
| `JsValues.Get` | src/index.ts:80 | A key found in an entry list comes with a value listed for that key. The key is missing exactly when no entry has it. |
| `Joiner.Flatten` | src/index.ts:24 | Specified by `FlattenAppend`, and through `CxIsRenderAll` by the structural rendering. |
| `Joiner.KeepTruthy` | src/index.ts:24 | Its own contract: no more elements than its input, all truthy. Specified further by `KeepTruthyIsFilter` (exactly the truthy leaves) and `KeepTruthyAppend` (order kept). |
| `Joiner.Cx` | src/index.ts:22-24 | Specified by `CxIsRenderAll`, `CxEmptyIff` and `CxAppend`. |
| `Joiner.CxIsRenderAll` | src/index.ts:22-24 | For every input, flatten, then filter, then join equals the structural rendering. In that rendering a truthy leaf is its text, a falsy leaf is nothing, and an array is its members space-joined, left to right. |
| `Joiner.CxIsRender` | src/index.ts:22-24 | One argument, at any depth, contributes exactly its structural rendering. |
| `Joiner.CxEmptyIff` | src/index.ts:22-24 | `cx` returns `""` exactly when no leaf at any depth is truthy. |
| `Joiner.KeepTruthyIsFilter` | src/index.ts:24 | `.filter(Boolean)` keeps exactly the truthy leaves. |
| `Joiner.FlattenAppend` | src/index.ts:24 | Flattening two argument lists one after the other is concatenating their flattenings. |
| `Joiner.KeepTruthyAppend` | src/index.ts:24 | The filter distributes over concatenation, so order is kept. |
| `Joiner.JoinAppend` | src/index.ts:24 | Joining two non-empty word lists is joining each, with one separator between them. |
| `Joiner.JoinEmptyIff` | src/index.ts:24 | Non-empty words join to `""` only when there are no words. |
| `Joiner.SurvivorTextsNonEmpty` | src/index.ts:24 | Every leaf that survives the filter writes a non-empty text. |
| `Joiner.JoinSpaceAppend` | src/index.ts:24 | Joining two lists of non-empty words with spaces is space-joining the two joins. |
| `Joiner.CxAppend` | src/index.ts:22-24 | `cx(...xs, ...ys)` is `cx(...xs)` and `cx(...ys)` joined with one space, or just one of them when the other is empty. |
| `Joiner.CxNested` | src/index.ts:22-24 | An array argument gives the same string as its elements passed as separate arguments. |
| `Joiner.CxLeaf` | src/index.ts:22-24 | One primitive argument gives its text when truthy and `""` otherwise. |
| `Joiner.CxIgnoresFalsy` | src/index.ts:22-24 | Inserting a falsy primitive anywhere among the arguments leaves the result unchanged. |
| `Joiner.CxIgnoresNestedFalsy` | src/index.ts:22-24 | Inserting a falsy primitive among the direct elements of an array argument leaves the result unchanged. |
| `Joiner.CxOfNothing` | src/index.ts:22-24 | `cx()` is `""`. |
| `Joiner.CxDropsFalsyExample` | src/index.ts:22-24 | `cx("a", null, "b", false, "c")` is `"a b c"`. |
| `Joiner.CxFlattensExample` | src/index.ts:22-24 | `cx("a", ["b", ["c", null], "d"])` is `"a b c d"`. |
| `CvaProps.DefinedProps` | src/index.ts:84-93 | Specified by `DefinedPropsOfEntries` and `DefinedIsObjectWithoutUndefined`; `PropsWithoutUndefined` computes it. |
| `CvaProps.PropsWithoutUndefined` | src/index.ts:84-93 | The loop's result equals the fold over the entries. It holds every entry whose value is not `undefined`, `null` and `false` included. Every key it holds comes from an entry whose value is not `undefined`. |
| `CvaProps.DefinedPropsOfEntries` | src/index.ts:86-93 | The fold keeps exactly the entries whose value is not `undefined`. |
| `CvaProps.ObjectOfEntries` | src/index.ts:86 | The object built from its entries holds exactly those entries. |
| `CvaProps.PrefixDistinct` | src/index.ts:86 | A prefix of an object's entries still has distinct keys. |
| `CvaProps.DefinedIsObjectWithoutUndefined` | src/index.ts:84-93 | `propsWithoutUndefined` is the props object with its `undefined`-valued keys removed. Nothing else changes. |
| `CvaProps.ObjectOfIncluded` | src/index.ts:86 | When every entry of one props list is an entry of another, each key of the first object is in the second object with the same value. |
| `CvaProps.DefinedPropsIncluded` | src/index.ts:84-93 | The same inclusion holds for `propsWithoutUndefined`. |
| `CvaProps.SameEntriesSameObject` | src/index.ts:84-93 | Listing the same entries in another order gives the same object and the same `propsWithoutUndefined`. |
| `Cva.VariantFragment` | src/index.ts:69-81 | Specified by `VariantFragmentSelects`, `FalsePropSelectsFalseOption` and `MissingOptionContributesNothing`. |
| `Cva.VariantFragments` | src/index.ts:68-82 | One fragment per declared variant, in declaration order; its place in the result is fixed by `ResolvePrecedence`. |
| `Cva.MergedValue` | src/index.ts:101-104 | Specified by `MergedValueOfProps`. |
| `Cva.Matches` | src/index.ts:99-105 | Every criterion strictly equals the merged value at its key; used by `CompoundFragmentsAreContributing`. |
| `Cva.IsNullish` | src/index.ts:97 | `classNames == null`; specified through `NullishCompoundIgnored`. |
| `Cva.Contributes` | src/index.ts:97-107 | A set class and a full match; the filter `ContributingClasses` keeps exactly these compounds (`CompoundFragmentsAreContributing`). |
| `Cva.CompoundFragments` | src/index.ts:95-110 | Specified by `CompoundFragmentsAreContributing` against the filter `ContributingClasses`, and by `CompoundFragmentsSnoc`, `CompoundFragmentsAppend` and `NullishCompoundIgnored`. |
| `Cva.VariantSetProp` | src/index.ts:130 | Specified, with `ChosenSet`, by `ChosenSetSpec`. |
| `Cva.ChosenSet` | src/index.ts:113-133 | Specified by `ChosenSetSpec`. |
| `Cva.SetEntryFragment` | src/index.ts:116-124 | Specified by `SetEntryOnNullVariant` (a `null` schema entry), `VariantSetEntryAsProp`, `VariantSetEntryNoFallback` and `SetEntryReadsDeclaredVariant`. |
| `Cva.VariantSetFragments` | src/index.ts:112-127 | One fragment per entry of the chosen set, in entry order, none without a set; its place in the result is fixed by `ResolvePrecedence`. |
| `Cva.Resolve` | src/index.ts:59-143 | Specified by `ResolveWithoutVariants`, `ResolvePrecedence`, `ResolveIgnoresPropsOrder`, `AbsentPropsAreEmpty` and `UndeclaredPropIgnored`, and by the examples. |
| `CvaProperties.ResolveWithoutVariants` | src/index.ts:62-64 | Without `config` or `config.variants`, the result is the base and the `class` prop space-joined. Nothing else in the configuration contributes. |
| `CvaProperties.ResolvePrecedence` | src/index.ts:136-142 | With variants, the result is five groups space-joined in this order: the base, the per-variant fragments, the compound fragments, the variant-set fragments, the `class` prop. |
| `CvaProperties.VariantFragmentSelects` | src/index.ts:68-82 | A `null` prop gives a fragment that renders as nothing, even when a default exists. A truthy or boolean prop names the option. Otherwise the default's key names the option. |
| `CvaProperties.FalsePropSelectsFalseOption` | src/index.ts:73-80 | A `false` prop selects the `"false"` option and never falls back to the default. |
| `CvaProperties.MissingOptionContributesNothing` | src/index.ts:80 | A key that names no option yields `undefined`, which renders as nothing. |
| `CvaProperties.MergedValueOfProps` | src/index.ts:101-104 | The merged view that the criteria read is the prop when it is defined (`null` and `false` included), and the default otherwise. |
| `CvaProperties.ContributingClassesAppend` | src/index.ts:95-110 | The reference filter over the compounds distributes over concatenation. |
| `CvaProperties.CompoundFragmentsAreContributing` | src/index.ts:95-110 | The `reduce` yields exactly the classes of the compounds whose class is set and whose every criterion strictly equals the merged value, in declaration order. |
| `CvaProperties.CompoundFragmentsSnoc` | src/index.ts:97-107 | A further compound is appended after the earlier classes exactly when it contributes. |
| `CvaProperties.CompoundFragmentsAppend` | src/index.ts:95-110 | Every matching compound contributes. None replaces or drops another. |
| `CvaProperties.NullishCompoundIgnored` | src/index.ts:97 | A compound whose class is `null` or missing contributes nothing, whatever its criteria. |
| `CvaProperties.CompoundFragmentsIgnoreKey` | src/index.ts:99-104 | A key that no criterion names cannot change which compounds match. |
| `CvaProperties.ChosenSetSpec` | src/index.ts:112-134 | The chosen set is named by `props.variant` when it is truthy, else by a non-empty `defaultVariantSet`. Otherwise no set is chosen. A name with no set chooses nothing. |
| `CvaProperties.VariantSetEntryAsProp` | src/index.ts:116-124 | A set entry whose value is a boolean or a non-empty string resolves as that value given as the variant's prop would. |
| `CvaProperties.VariantSetEntryNoFallback` | src/index.ts:116-124 | A set entry whose value is `undefined`, `null` or `""` reads the option named by its string form, with no fallback to the default. |
| `CvaProperties.SetEntryOnNullVariant` | src/index.ts:117-119 | A set entry naming a variant whose option map is `null` yields `null`, which renders as nothing, whatever the entry's value. |
| `CvaProperties.NullVariantWithPropThrows` | src/index.ts:73-80 | On the props path there is no such test: a variant whose option map is `null`, given any prop other than `null`, makes the call throw. |
| `CvaProperties.SetEntryReadsDeclaredVariant` | src/index.ts:117-124 | In a configuration whose objects have distinct keys, a set entry reads the same option map that the per-variant step uses for that variant. |
| `CvaProperties.ResolveIgnoresPropsOrder` | src/index.ts:59-143 | The order of the caller's props keys affects neither whether the resolver throws nor its result. |
| `CvaProperties.AbsentPropsAreEmpty` | src/index.ts:59-143 | Calling with no props is calling with `{}`. |
| `CvaProperties.UndeclaredPropIgnored` | src/index.ts:59-143 | A prop that is not `class` or `variant`, names no declared variant and is named by no criterion does not change the result. |
| `CvaExamples.SizeDefaultExample` | src/index.ts:68-82 | With no props, the default size's class is chosen. |
| `CvaExamples.SizeExplicitExample` | src/index.ts:68-82 | An explicit size wins over the default. |
| `CvaExamples.SizeNullExample` | src/index.ts:73 | A `null` size suppresses the default. |
| `CvaExamples.CompoundAppliesExample` | src/index.ts:95-110 | When both criteria hold, the compound class follows the variant classes. |
| `CvaExamples.CompoundMissesExample` | src/index.ts:99-105 | A criterion whose key has neither a prop nor a default does not match. |
| `CvaExamples.VariantSetExample` | src/index.ts:112-134 | Choosing a set yields the classes its entries name, and the compound does not see the set's values. |
| `CvaExamples.DefaultBesideSetExample` | src/index.ts:68-142 | With a default `size` and a chosen set that also names `size`, both fragments appear: the default's after the base, the set's at the end. |

## Left out

- `VariantProps` and the generic `Config`, `Props`, `ConfigVariants` and `VariantSetSchema` types (src/index.ts:8-11, 29-57) are left out. They exist only at the type level. `./types` is not part of this model.
- Values other than `undefined`, `null`, booleans, strings and arrays are left out: numbers (`0`, `NaN`), objects and functions, and their truthiness and string forms.
- Keys inherited through the prototype chain (for example a prop or option named `toString`) are left out. A lookup sees only own entries.
- `Object.keys` puts integer-like keys first in their numeric order. This is left out. Entry lists are taken to be already in enumeration order.
- Exceptions are left out. A `null` entry in `config.variants` read with a non-`null` prop (src/index.ts:80) and a variant-set entry that names an undeclared variant (src/index.ts:124) both throw in the source. In the model they are the precondition `Resolvable`, not an error result.
- A missing `defaultVariants`, `compoundVariants` or `variantSets` is modelled as an empty list. The source reads `defaultVariants` through `?.` (line 71) and spreads it (line 102), and reads the other two through `?.`; a missing object gives the same result as an empty one in each place. A `null` `variants` is modelled like a missing one, as `== null` treats both alike.
- Distinct keys in the configuration are not required by `Resolve`. The per-variant step visits every entry of `variants`, while a set entry reads the first entry with its key. The two agree whenever the configuration satisfies `ConfigWellFormed`, as any object literal does (`SetEntryReadsDeclaredVariant`). `ConfigWellFormed` also rules out a compound criterion named `class`, which the source's destructuring (line 96) never leaves among the criteria; `Resolve` does not require this either.
- Compound criteria are modelled as primitive values. An array criterion compares by reference identity in the source (`===`), and that identity is left out.
- The curried closure (src/index.ts:59-61) is left out. `Resolve` takes `base` and `config` with every call, since the closure only captures them.
- `flat(Infinity)` and `@ts-ignore` (src/index.ts:23-24) are modelled as structural recursion over the nested datatype, not by their own mechanics.
