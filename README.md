# Plottable core, modelled in Dafny

This project models the sequential core of Plottable, a TypeScript charting
library built on d3. It covers two parts.

The **Label** component (`src/components/label.ts`) has this state:

- its text, orientation and padding, set through validating setters;
- the space it requests from its parent;
- the padding and text box that its renderer computes.

The **utilities and registries** that `plottable.d.ts` declares are modelled
from their doc comments, because that file holds declarations only:

- the array helpers `inRange`, `clamp`, `uniq`, `flatten`, `addArrays`, `max` and `min`;
- the strict-equality associative array, and the `Set` and `CallbackSet` shims;
- the `Domainer`, which merges extents into a scale's domain, includes registered values and pads the result;
- component containers, with their membership operations and the `above`/`below` merge;
- a Plot's registry of datasets.

Files:

- `wrappers.dfy` holds `Option`, `Result` and `Outcome`.
- `utils.dfy` holds `Utils.Methods`, plus the list helpers `IndexOf` and `RemoveFirst` that the other modules share.
- `collections.dfy` holds `StrictEqualityAssociativeArray`, `Set` and `CallbackSet`.
- `domainer.dfy` holds `Domainer`.
- `components.dfy` holds Component, ComponentContainer and Group.
- `plots.dfy` holds the Plot dataset registry.
- `label.dfy` holds Label.

Modelling choices:

- **Numbers** are `real`. NaN, `undefined` and `null` are not values of the model.
- **Thrown errors** become `Result` or `Outcome` values. A setter that throws leaves the state as it was.
- **Text measurement** comes from an external measurer, so it is an input here: a `TextSize` of non-negative reals.
- **Mutating objects are classes.** `StrictEqualityAssociativeArray`, `Set`, `Label`, `Domainer`, `Component` and `Plot` update fields in place: a sequence, a map or a set.
- **Identity:**
  - Containers, datasets and callbacks are compared by reference, as `===` compares them.
  - Keys of the associative array are compared with Dafny's `==`. For a class type that is reference equality.
- **Components** are a single class. A constant `isGroup` tells a Group (a container) from a plain component.
- **Domainer scale:** only a linear scale is modelled, so padding by equal visual amounts means padding by equal amounts in data units. A domain of a single point is widened by one unit on each side whenever the padding proportion is positive.
- **`addArrays`** on arrays of different lengths returns an error.
- **Padding with one exception.** The doc comment of `pad` (`plottable.d.ts:715-717`) says both ends of a linear domain grow by the same amount. The model keeps that: an end that is not an exception grows by half of p times the width, whether or not the other end is an exception. The doc comment at `plottable.d.ts:727` gives a different answer: with an exception at 0, `[0, 100]` pads to `[0, 105]`. That is the whole 5% growth put on the one free end. The model gives `[0, 102.5]` instead; `PadExceptionExample` states it.
- **Callbacks** are objects compared by reference. Calling one is recorded in a `CallLog`; what a callback does besides being called is not modelled.
- **ToLowerCase** lower-cases ASCII letters only.

## Model

| member | source | states |
|---|---|---|
| Utils.InRange | plottable.d.ts:4-13 | x lies between a and b inclusive, whichever of the two is smaller |
| Utils.InRangeSymmetric | plottable.d.ts:4-13 | swapping the two ends does not change the answer |
| Utils.InRangeIffClampFixes | plottable.d.ts:5-22 | for min <= max, x is in the inclusive range [min, max] exactly when clamping leaves x unchanged |
| Utils.Clamp | plottable.d.ts:14-22 | for min <= max: the result lies in [min, max]; it is x when x is already in range, min when x is below, and max when x is above; for min > max it is max |
| Utils.AddArrays | plottable.d.ts:28-35 | succeeds iff the lengths agree; on success result[i] = alist[i] + blist[i] at every index; otherwise the error records both lengths |
| Utils.AddArraysCommutes | plottable.d.ts:28-35 | addArrays(a, b) = addArrays(b, a) when the lengths agree |
| Utils.Uniq | plottable.d.ts:69-76 | the loop with a seen-set returns exactly the reference function `Unique` of the input |
| Utils.UniqueSameValues | plottable.d.ts:69-76 | a value is in uniq(s) iff it is in s |
| Utils.UniqueDistinct | plottable.d.ts:69-76 | no value occurs twice in uniq(s) |
| Utils.UniqueFirstOccurrenceOrder | plottable.d.ts:69-76 | the values of uniq(s) are ordered by the index of their first occurrence in s |
| Utils.UniqueSnoc | plottable.d.ts:69-76 | a new last element is kept iff it has not already been kept |
| Utils.UniqPattern | test/utils/arrayUtilsTests.ts:6-9 | for any four distinct values a, b, c, d: uniq([a,b,a,a,c,d]) = [a,b,c,d] |
| Utils.UniqExample | test/utils/arrayUtilsTests.ts:6-9 | uniq(["foo","bar","foo","foo","baz","bam"]) = ["foo","bar","baz","bam"] |
| Utils.Flatten | plottable.d.ts:85-89 | every element of every inner array is in the result, and every element of the result comes from some inner array |
| Utils.FlattenAppend | plottable.d.ts:85-89 | flatten(a + b) = flatten(a) + flatten(b), so the arrays are joined in the order they appear; the length is the sum of the inner lengths |
| Utils.Max | plottable.d.ts:103-108 | the default for an empty array; otherwise a value the accessor gives for some element, and no smaller than any of them |
| Utils.Min | plottable.d.ts:109-114 | the default for an empty array; otherwise a value the accessor gives for some element, and no larger than any of them |
| Collections.StrictEqualityAssociativeArray.constructor | plottable.d.ts:176-181 | a new store is empty |
| Collections.StrictEqualityAssociativeArray.Set | plottable.d.ts:182-189 | returns true iff the key was already stored; afterwards the store is the old one updated at that key; a new key goes last among the keys |
| Collections.StrictEqualityAssociativeArray.Get | plottable.d.ts:190-196 | the value stored for the key, or None when there is none |
| Collections.StrictEqualityAssociativeArray.Has | plottable.d.ts:197-206 | true iff there is an entry for the key, whatever its value |
| Collections.StrictEqualityAssociativeArray.Delete | plottable.d.ts:226-232 | returns whether the key was stored; afterwards the store is the old one without that key, and the other keys keep their order |
| Collections.StrictEqualityAssociativeArray.Keys | plottable.d.ts:213-218 | the keys without repeats, one per entry, each mapped in the store to the value at the same position |
| Collections.StrictEqualityAssociativeArray.KeysAreStored | plottable.d.ts:197-218 | a key is listed by keys() iff the store has an entry for it |
| Collections.StrictEqualityAssociativeArray.Values | plottable.d.ts:207-212 | one value per key, each being the stored value of the key at the same position |
| Collections.StrictEqualityAssociativeArray.MapEntries | plottable.d.ts:219-225 | the callback applied to (key, value, index) of every entry, in entry order |
| Collections.PairMapRemove | plottable.d.ts:226-232 | cutting one pair out of a backing array with distinct keys leaves distinct keys, and the map without that key |
| Collections.Set.constructor | plottable.d.ts:245 | a new Set has no values |
| Collections.Set.Add | plottable.d.ts:240-249 | appends the value unless it is present; values stay distinct |
| Collections.Set.Delete | plottable.d.ts:240-249 | returns whether the value was present; removes it and keeps the order of the rest |
| Collections.Set.Values | plottable.d.ts:240-249 | the values, never repeated |
| Collections.CallCallbacks | plottable.d.ts:294-302 | the log gains one call per callback in the set, with the given arguments, in insertion order; the set itself is returned |
| Collections.CallsOnceEach | plottable.d.ts:294-302 | each callback of the set is called exactly once, only with the given arguments, and no other callback is called |
| Domainers.DefaultCombine | plottable.d.ts:684-697 | with no combiner: the default extent when there are no extents; otherwise its min is the smallest first element and its max the largest second element |
| Domainers.IncludeAll | plottable.d.ts:746-757 | the domain stretched over the included values is the smallest extent covering the domain and every included value |
| Domainers.HullUnique | plottable.d.ts:746-757 | there is only one such smallest extent |
| Domainers.IncludeZeroExample | plottable.d.ts:746-757 | including 0 stretches [50, 100] to [0, 100] |
| Domainers.PadDomain | plottable.d.ts:709-735 | both ends move by the same amount unless one is a padding exception; an end that is an exception does not move, and the other end moves by half of p times the width; a single-point domain widens by one on each side |
| Domainers.PadCovers | plottable.d.ts:709-723 | with a non-negative proportion, padding never shrinks a domain |
| Domainers.PadWidth | plottable.d.ts:709-723 | with no exceptions the padded domain is (1 + p) times as wide, so 0.05 makes it 5% larger |
| Domainers.PadLinearExample | plottable.d.ts:715-717 | [10, 20] padded with proportion 1 becomes [5, 25] |
| Domainers.PadExceptionExample | plottable.d.ts:724-735 | [0, 100] pads to [-2.5, 102.5], and to [0, 102.5] with an exception at 0 |
| Domainers.DomainContainsIncluded | plottable.d.ts:746-757 | with a non-negative proportion the computed domain contains every included value |
| Domainers.Domainer.constructor | plottable.d.ts:684-697 | a new Domainer has the given combiner, proportion 0 (the model's choice) and empty registries |
| Domainers.Domainer.Pad | plottable.d.ts:709-723 | sets the proportion, 0.05 when none is given (the model's choice); nothing else changes |
| Domainers.Domainer.AddPaddingException | plottable.d.ts:724-735 | with a key: map update, overwriting that key; without one: set insertion; the value is then an exception |
| Domainers.Domainer.RemovePaddingException | plottable.d.ts:736-745 | a string is a key and is removed from the keyed map; a value is removed from the unkeyed set |
| Domainers.Domainer.AddIncludedValue | plottable.d.ts:746-757 | with a key: map update, overwriting that key; without one: set insertion; the value is then included |
| Domainers.Domainer.RemoveIncludedValue | plottable.d.ts:758-767 | a string is a key and is removed from the keyed map; a value is removed from the unkeyed set |
| Domainers.Domainer.ComputeDomain | plottable.d.ts:698-708 | the result is the merged extents, stretched over every included value, then padded with the current proportion and exceptions |
| Components.Component.Group | plottable.d.ts:1785-1799 | `new Group()` is an empty container with no parent |
| Components.Component.Empty | plottable.d.ts:1765-1770 | true iff the container holds no component |
| Components.Component.Add | plottable.d.ts:1752-1758 | refuses a missing component, one already held, and the container itself; otherwise prepends or appends it and makes the container its parent; the added component keeps its own members; membership stays consistent |
| Components.Component.Remove | plottable.d.ts:1746-1751 | removes the component, keeps the order of the others, and clears the removed component's parent link |
| Components.Component.Detach | plottable.d.ts:1671-1679 | the component leaves its parent's list and has no parent afterwards |
| Components.Component.DetachAll | plottable.d.ts:1771-1777 | every former member is detached and keeps its own members, the container is empty, and it keeps its own parent |
| Components.Component.Merge | plottable.d.ts:1642-1670 | the four cases: two plain components or two groups give a new group of both; a group and a component give that group with the component added at the end implied by above or below; an operand that is not the returned group keeps its members, and an existing group that is returned keeps its parent |
| Components.Component.Above | plottable.d.ts:1643-1656 | this is drawn over c in every case: c before this in a new group, c prepended to this group, or this appended to c's group; an operand that is not the returned group keeps its members, and an existing group returned keeps its parent |
| Components.Component.Below | plottable.d.ts:1657-1670 | this is drawn under c in every case: this before c in a new group, c appended to this group, or this prepended to c's group; an operand that is not the returned group keeps its members, and an existing group returned keeps its parent |
| Components.AboveIsMirroredBelow | plottable.d.ts:1785-1801 | a above b orders the new group as b below a; the earlier member is rendered below |
| Plots.NatToStringInjective | plottable.d.ts:2608-2618 | different counter values give different decimal strings |
| Plots.GeneratedKeysDistinct | plottable.d.ts:2608-2618 | generated keys "_<n>" never repeat |
| Plots.Plot.AddDataset | plottable.d.ts:2608-2618 | without a key, the dataset takes "_<counter>" and the counter advances; a dataset already under the key is replaced; the key goes last in the order; a raw array is wrapped in a new Dataset |
| Plots.Plot.constructor | plottable.d.ts:2604 | a new Plot has no datasets, no keys and a counter at 0 |
| Plots.Plot.Datasets | plottable.d.ts:2717 | the datasets in drawing order, one per key, each the dataset stored under that key |
| Plots.Plot.DatasetOrder | plottable.d.ts:2692-2697 | the keys in drawing order, without repeats, each with a dataset |
| Plots.Plot.SetDatasetOrder | plottable.d.ts:2698-2706 | adopts the order iff it is a permutation of the current keys; otherwise nothing changes |
| Plots.PermutationKeepsDistinct | plottable.d.ts:2698-2706 | a permutation of the keys has no repeats either, so the registry stays consistent |
| Plots.Plot.ResolveKey | plottable.d.ts:2707-2716 | a string is the key; for a Dataset or data array it is the key of the first identical one, if any |
| Plots.Plot.RemoveDataset | plottable.d.ts:2707-2716 | removes only the dataset the identifier resolves to, keeping the relative order of the others; an identifier matching nothing changes nothing |
| Labels.Label.constructor | src/components/label.ts:31-40 | text as given (default ""), orientation "horizontal", padding 0, centred, fixed width and fixed height |
| Labels.Label.Create | src/components/label.ts:31-40 | the two-argument constructor fails iff the lower-cased orientation is not accepted; otherwise it stores the lower-cased orientation, with padding 0, centred, and fixed size |
| Labels.Label.SetText | src/components/label.ts:75-83 | any text is stored and is what the getter returns; nothing else changes |
| Labels.Label.SetOrientation | src/components/label.ts:99-112 | the argument is lower-cased; it is accepted iff it is horizontal, left or right; when rejected the error names it and the orientation is unchanged |
| Labels.Label.SetPadding | src/components/label.ts:127-139 | a negative amount is rejected and changes nothing; any other amount is stored |
| Labels.Label.Request | src/components/label.ts:42-51 | the label's request is the measured text plus twice the padding, with width and height swapped unless horizontal, and never negative |
| Labels.Label.IsFixedWidth | src/components/label.ts:38 | a Label is fixed-width, in every valid state |
| Labels.Label.IsFixedHeight | src/components/label.ts:37 | a Label is fixed-height, in every valid state |
| Labels.ToLowerCase | src/components/label.ts:103 | same length, each character lower-cased, and no upper-case ASCII letter left |
| Labels.RequestedSpace | src/components/label.ts:42-51 | horizontal: width + 2·padding by height + 2·padding; left or right: height + 2·padding by width + 2·padding |
| Labels.RotatedRequestSwaps | src/components/label.ts:42-51 | left and right labels request the same space: the horizontal request with its sides swapped |
| Labels.ToLowerCaseIdempotent | src/components/label.ts:103 | lower-casing twice is the same as lower-casing once |
| Labels.OrientationsAreLowerCase | src/components/label.ts:103-105 | every accepted orientation is its own lower case |
| Labels.AppliedPadding | src/components/label.ts:146-147 | max(min((size − text)/2, padding), 0): never negative and never above the padding; the full padding when the slack allows it; 0 when the text does not fit |
| Labels.RenderLayout | src/components/label.ts:146-151 | paddings from the unturned measurement, write size = size − 2·padding on each axis, and the rotation of the orientation |
| Labels.RenderLayoutFits | src/components/label.ts:146-150 | for sizes >= 0, each padding is in [0, padding], the write area is never negative, and it is at least the text's size when the label is |
| Labels.TextRotation | src/components/label.ts:151 | horizontal → 0, right → 90, left → −90, and undefined (None) for anything else |
| Labels.HorizontalRequestGetsFullPadding | src/components/label.ts:42-51 | a horizontal label given exactly its request gets its full padding, and a write area the size of its text |
| Labels.RotatedRequestLosesPadding | src/components/label.ts:146-147 | a left label whose text measures 100 by 10, with padding 5, requests 20 by 110 and is rendered with width padding 0 |
| Labels.RequestGetsFullPadding | src/components/label.ts:146-147 | with the measurement turned for rotated labels, every label given exactly its request gets its full padding on both axes |

## Left out

- Rendering is not modelled: `_setup`, the draw calls in `_render`, CSS classes, the text container's transform, and the text measurer, wrapper and writer. The measured text size is an input.
- `redraw()` after each setter, layout invalidation and anchoring to the DOM are left out. They are rendering, not state.
- The `xAlignment` and `yAlignment` setters belong to the base Component. Only their initial value "center" is modelled.
- Labels.ToLowerCase: lower-cases ASCII letters only, not the full Unicode mapping of `toLowerCase`.
- Labels.Label.SetPadding: the `+padAmount` coercion of a non-number, and NaN (which is not below 0 and would be stored), are not modelled, because numbers are reals.
- Domainers.Domainer.ComputeDomain: covers a linear scale only. The `nice()` rounding and log and time scales are not modelled; they need the d3 scale's `scale`, `invert` and `nice`.
- Domainers.PadDomain: with exactly one end a padding exception, the other end moves by half of p times the width. The doc's example at `plottable.d.ts:727` instead moves it by the whole p times the width, giving [0, 105].
- Domainers.PadExceptionExample: states [0, 102.5] for the case where the doc's example at `plottable.d.ts:727` says [0, 105], for the reason on the line above.
- `Domainer.nice(count)` is not modelled, because its only effect is the d3 nice step.
- `Component.detach` also removes the component's DOM element. Only the parent link is modelled.
- The `Group` constructor taking an initial list of components is not modelled. Merge builds its new groups by adding the members one by one.
- Components.Component.Add: the model requires that a component being added has no parent link, so it never appears in two containers. `remove` and `detach` both clear the link, so a removed component can be added again. It refuses a container added to itself. It does not refuse a container's own ancestor, which would make a cycle; `plottable.d.ts` does not say what `add` does in these cases.
- Components.Component.Merge, Components.Component.Above, Components.Component.Below: they inherit Add's requirement. A plain component merged into a group, or both operands when a new group is made, must have no parent link.
- Collections.CallCallbacks: what a callback does when called, and what it returns, are not modelled. Only the calls, their arguments and their order are recorded.
- Domainers.Domainer.Pad: `plottable.d.ts:723` declares the proportion optional without naming a default. The model uses 0.05, the "5% larger" of line 713, by choice.
- Domainers.Domainer.constructor: the model starts with proportion 0, which `plottable.d.ts:698` does not state.
- Methods that return their own object for chaining return nothing in the model, where there is nothing else to return: `Set.add` (`plottable.d.ts:246`) and the `Domainer` setters `pad`, `addPaddingException`, `removePaddingException`, `addIncludedValue` and `removeIncludedValue`.
- Utils.InRange: order-free, as "between a and b" at `plottable.d.ts:5` reads. Read literally as "[a, b]" (line 10), the range would be empty when a > b.
- Utils.Uniq: compares values with `==`. The doc at `plottable.d.ts:71` says the original keys values by `toString()`, so different objects that print alike collapse there and not here.
- Utils.Max, Utils.Min: the accessor takes only the element. The index argument that `plottable.d.ts:108` and `114` pass, `(t?, i?)`, is not modelled.
- Plots.Plot.SetDatasetOrder: an order that is not a permutation of the keys is ignored and changes nothing. `plottable.d.ts:2701-2702` only says the order must be a permutation; what happens otherwise is the model's choice.
- Drawers, animators and plot metadata created per dataset are not modelled.
- `Utils.Methods` functions other than those above are not modelled: intersection, union, populateMap, createFilledArray, arrayEq, objEq, range, colour helpers, parseExtent and intersectsBBox.

## Findings

| source | as written | input that shows it | evidently intended | confidence | as-written member | corrected member |
|---|---|---|---|---|---|---|
| src/components/label.ts:146-147 | both paddings are computed from the unturned text size, but `requestedSpace` turns the size for left and right labels | a left label measuring 100 by 10 with padding 5 requests 20 by 110; laid out in that space it gets width padding 0 instead of 5 | compute the paddings from the size turned as `requestedSpace` turns it, so a label given its request gets its full padding | medium; not executed | Labels.RotatedRequestLosesPadding | Labels.RequestGetsFullPadding |
