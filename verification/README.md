# Sollumz fragment export, modelled in Dafny

This project models the part of the Sollumz Blender add-on that turns a
fragment object (a breakable, physics-driven model for GTA V) into the
CodeWalker `.yft.xml` record tree, plus the XML schema that tree is written
in:

- `cwxml/bound.py`: the collision-bound records and their defaults; the
  `type` discriminator of each bound kind; the polygon records; the custom
  text codecs for vertices, vertex colours and octants; and the two
  polymorphic list readers, which walk every element below a list and
  dispatch on `type` or on the tag.
- `cwxml/fragment.py`: the fragment, physics-LOD, archetype, group, child
  and window records with their defaults, the shatter-map text codec, and
  a window's width and height.
- `yft/yftexport.py`:
  - the recursive group collection (`get_group_objects`) and the
    parent-group lookup, with 255 meaning "not under a group";
  - the group and fragment naming;
  - for each LOD in order, its tag, archetype, groups, children with their
    transforms, and windows;
  - the LOD-type slot assignment, where the last LOD of a type wins;
  - the missing-drawable error;
  - the second, high-detail-only file and its `_hi` name.
- `sollumz_helper.py`: `get_sollumz_objects_from_objects`, the one-level
  type filter.

The project is split into these modules:

- `Wrappers`: `Option` and `Result`.
- `Text`: Python's `strip`, `split`, `join` and `replace` on `seq<char>`.
- `Decimal`: `int()` on ASCII numerals and `str()` on integers.
- `Xml`: element nodes and `Element.iter()`.
- `Rows`: the comma-row text format shared by vertices and colours.
- `Slots`: a record field either keeps its schema default or holds a value.
- `Bound`: `cwxml/bound.py`.
- `Fragment`: `cwxml/fragment.py`.
- `Scene`: the Blender objects the exporter reads.
- `SollumzHelper`: `sollumz_helper.py`.
- `YftExport`: `yft/yftexport.py`.

Scene objects are values with an `id`. Object identity (`list.index`,
`not in` on Blender objects) is modelled as equality of ids or of the
object values.

Each loop of the source is a `method` whose `ensures` ties its result to a
specification function. The lemmas state what that function promises:
membership, order, distinctness, error cases, slot choice and round trips.
Exceptions the source raises become `Err` values of `Result`.

## Model

| member | source | states |
|---|---|---|
| Bound.TypeName | cwxml/bound.py:83-189 | no item kind declares the composite's `type`, "Composite" |
| Bound.TypeNameInjective | cwxml/bound.py:83-189 | no two kinds declare the same `type` |
| Bound.KindNamed | cwxml/bound.py:83-104 | a `type` name maps to at most one bound kind, and only to the kind whose class declares that name |
| Bound.KindNamedExact | cwxml/bound.py:83-104 | a name maps to a kind exactly when it is that kind's declared `type` string |
| Bound.NewBoundItem | cwxml/bound.py:40-57 | a new bound item has tag "Item", its kind's `type` attribute, geometry fields exactly for Geometry and GeometryBVH, the extra Geometry-only fields only for Geometry, and empty vertex and polygon lists |
| Bound.NewBoundComposite | cwxml/bound.py:60-64 | a new composite has tag "Bounds", no children, and type "Composite", which names no item kind |
| Bound.PolygonKindOf | cwxml/bound.py:302-312 | a polygon kind is chosen only by the element tag that kind declares |
| Bound.PolygonKindOfTag | cwxml/bound.py:302-312 | an element is read as a polygon kind exactly when its tag is that kind's tag |
| Bound.PolygonTagInjective | cwxml/bound.py:318-361 | no two polygon kinds share a tag |
| Bound.NewPolygon | cwxml/bound.py:288-367 | every polygon starts with material index 0, and each kind has its declared attribute defaults |
| Bound.DefaultVertexIndices | cwxml/bound.py:322-366 | default vertex indices: triangle 0,0,0; sphere 0; capsule and cylinder 0,1; box 0,1,2,3 |
| Bound.RowsOf | cwxml/bound.py:114-126 | missing element text is an error, not an empty list |
| Bound.RowsOfArity | cwxml/bound.py:116-124 | every row that is read has exactly the codec's arity |
| Bound.RowsOfFirstError | cwxml/bound.py:116-124 | the first bad line decides the error: a wrong field count is the element's read-value error, a bad number is an invalid-number error for that token |
| Bound.RowsOfAllRead | cwxml/bound.py:116-126 | when every line reads, the result is exactly those rows in line order |
| Bound.RowsFromXml | cwxml/bound.py:114-126 | the reading loop returns what the row specification gives |
| Bound.PartialLineStep | cwxml/bound.py:136-139 | writing one more component appends it, with ", " before every component but the first |
| Bound.PartialLineDone | cwxml/bound.py:136-140 | after all components, the partial line is the row's line |
| Bound.RowsBodyStep | cwxml/bound.py:132-140 | writing one more row appends its line and a newline |
| Bound.RowToText | cwxml/bound.py:136-140 | the component loop writes the row's line |
| Bound.RowsToXml | cwxml/bound.py:128-144 | the writer emits "\n" and then one comma-joined line per row |
| Bound.VerticesFromXml | cwxml/bound.py:114-126 | vertices are read as rows of exactly three numbers |
| Bound.VerticesToXml | cwxml/bound.py:128-144 | vertices are written in the row format |
| Bound.BlankVerticesFail | cwxml/bound.py:116-121 | whitespace-only vertex text is a read-value error, not an empty list |
| Bound.VerticesRoundTrip | cwxml/bound.py:114-144 | reading written vertices gives back every component as re-read from its printed form, and the vertices themselves when printing is exact |
| Bound.EmptyVerticesFail | cwxml/bound.py:116-142 | an empty vertex list is written as "\n", which then fails to read back |
| Bound.ParseChannel | cwxml/bound.py:266-267 | a colour channel reads exactly when it is a decimal integer, with that integer's value |
| Bound.ShowChannel | cwxml/bound.py:280 | a channel is written as the decimal integer of its value times 255, truncated toward zero |
| Bound.ColourFormatPrintable | cwxml/bound.py:280 | every written channel is a comma-free, space-free, non-empty token |
| Bound.ColourReread | cwxml/bound.py:266-280 | a written channel reads back as its value times 255, truncated |
| Bound.ColoursWhole | cwxml/bound.py:259-267 | every colour read has four whole-number channels |
| Bound.ColoursFromXml | cwxml/bound.py:257-269 | colours are read as rows of four integers |
| Bound.ColoursToXml | cwxml/bound.py:271-285 | an empty colour list writes no element; otherwise the element holds the scaled rows |
| Bound.ColourRereadScaled | cwxml/bound.py:266-283 | re-reading a written colour scales each channel by 255 |
| Bound.ColoursRoundTripScales | cwxml/bound.py:257-285 | writing colours and reading them back gives each channel times 255, not the original |
| Bound.ReadChannelWrittenScaled | cwxml/bound.py:266-280 | a channel read as n is written back as 255·n |
| Bound.ChannelWrittenInRange | cwxml/bound.py:280 | channels in [0,1] are written as integers from 0 to 255 |
| Bound.OctantTokens | cwxml/bound.py:159 | the octant text always splits into at least one token |
| Bound.FirstWhere | cwxml/bound.py:161-166 | what is found is an element that meets the test |
| Bound.FirstWhereNone | cwxml/bound.py:161-166 | nothing is found exactly when no element meets the test |
| Bound.FirstWhereKept | cwxml/bound.py:161-166 | the first match in a prefix stays the first match after extension |
| Bound.FirstWhereAt | cwxml/bound.py:161-166 | an element that meets the test after a prefix with no match is the first match |
| Bound.TokenIndices | cwxml/bound.py:165-166 | a token adds at most one index |
| Bound.TokenConverts | cwxml/bound.py:165-166 | a non-empty integer token adds its value |
| Bound.GroupValues | cwxml/bound.py:161-166 | a group has at most as many values as tokens |
| Bound.GroupCount | cwxml/bound.py:161-164 | the number of groups closed is at most a third of the tokens, and at least a third minus one |
| Bound.Groups | cwxml/bound.py:158-168 | the requested number of groups is produced, each with at most three indices |
| Bound.Octants | cwxml/bound.py:153-169 | missing or empty text is an empty list; the first bad token is reported as an invalid number; otherwise the group count is that of the tokens, with at most three indices in each group |
| Bound.GroupCountStep | cwxml/bound.py:161-164 | a group closes exactly at each non-zero multiple of three |
| Bound.GroupValuesSnoc | cwxml/bound.py:165-166 | one more token adds its index, if any, to the end of the current group |
| Bound.OctantPush | cwxml/bound.py:162-166 | at a non-zero multiple of three the current group is pushed and the token starts a fresh group |
| Bound.OctantKeep | cwxml/bound.py:162-166 | at any other position the token's index joins the current group |
| Bound.ScanToken | cwxml/bound.py:162-166 | one pass of the loop fails exactly on a non-empty token that does not convert, and otherwise moves the groups one token on |
| Bound.GoodUpToNoneBad | cwxml/bound.py:161-166 | a prefix of good tokens holds no bad token |
| Bound.BadTokenStops | cwxml/bound.py:165-166 | the first bad token is the one reported |
| Bound.NoBadTokens | cwxml/bound.py:161-166 | with no bad token, no error is reported |
| Bound.OctantsLoseLastGroup | cwxml/bound.py:161-168 | 3m tokens give m-1 groups: the last group is never appended; 3m+1 tokens give m |
| Bound.GroupOfThree | cwxml/bound.py:165-166 | three integer tokens give a group of their three values |
| Bound.OctantTriples | cwxml/bound.py:158-168 | 3m integer tokens give exactly the first m-1 triples, in order |
| Bound.OctantsFromXml | cwxml/bound.py:153-169 | the octant loop returns what the octant specification gives |
| Bound.OctantsToXml | cwxml/bound.py:171-173 | octants are written as an empty element, which reads back as no octants |
| Bound.BoundKindOf | cwxml/bound.py:209-226 | an element is a bound item only when its `type` attribute names a kind |
| Bound.BoundKindOfType | cwxml/bound.py:209-226 | an element is read as a kind exactly when its `type` attribute is that kind's name |
| Bound.CompositeNotAnItem | cwxml/bound.py:208-226 | an element without `type`, or with type "Composite", is skipped |
| Bound.BoundsFromXml | cwxml/bound.py:204-228 | the list reader dispatches every element of the full walk, including the list element itself, in walk order |
| Bound.PolygonsFromXml | cwxml/bound.py:298-314 | the polygon reader dispatches every element of the full walk by tag, in walk order |
| Text.Strip | cwxml/bound.py:116 | `strip()` leaves no whitespace at either end |
| Text.StripBlank | cwxml/bound.py:116 | `strip()` leaves nothing exactly when the text is all whitespace |
| Text.StripPadded | cwxml/fragment.py:188 | whitespace around a trimmed text is exactly what `strip()` removes |
| Text.Split | cwxml/bound.py:116 | `split(sep)` never returns an empty list |
| Text.SplitAvoids | cwxml/bound.py:119 | no part of a split holds the separator |
| Text.SplitNoSep | cwxml/bound.py:119 | a text without the separator splits into itself |
| Text.SplitFirst | yft/yftexport.py:103 | `split(".")[0]` is the text before the first ".", or all of it when there is none |
| Text.JoinSplit | cwxml/fragment.py:199 | joining the parts of a split with the same separator gives the text back |
| Text.SplitJoin | cwxml/fragment.py:188-199 | splitting a join of separator-free parts gives the parts back |
| Text.JoinPrefix | cwxml/fragment.py:199 | a join begins with its first part |
| Text.JoinAvoids | cwxml/fragment.py:199 | a character found in neither the parts nor the separator is not in the join |
| Text.ReplaceAbsent | yft/yftexport.py:284 | `replace` of a pattern that does not occur changes nothing |
| Text.ReplaceAvoids | yft/yftexport.py:284 | `replace` brings in no character that neither the text nor the replacement has |
| Text.ReplaceSkips | yft/yftexport.py:187-188 | `replace` copies a prefix that lacks the pattern's first character unchanged |
| Decimal.NatToString | cwxml/bound.py:280 | `str(n)` of a natural number is a run of digits without a leading zero |
| Decimal.IntToString | cwxml/bound.py:280 | `str(n)` is digits with at most a leading "-" |
| Decimal.ParseInt | cwxml/bound.py:166 | `int()` succeeds exactly on an optional sign followed by ASCII digits, and the result is negative only after a "-" |
| Decimal.NatDigitsRoundTrip | cwxml/bound.py:266-280 | the digits `str` writes read back as the number |
| Decimal.IntRoundTrip | cwxml/bound.py:266-280 | `int(str(n)) == n` for every integer |
| Decimal.Trunc | cwxml/bound.py:280 | `int(x)` on a float truncates toward zero |
| Decimal.ChannelInRange | cwxml/bound.py:280 | a channel in [0, 1] is written as an integer in [0, 255] |
| Rows.ReadFields | cwxml/bound.py:123-124 | the fields read exactly when each converts, giving their values in order; the error is a bad number |
| Rows.ReadRow | cwxml/bound.py:119-121 | a line with the wrong number of comma fields is a read-value error |
| Rows.ReadRows | cwxml/bound.py:118-124 | the lines read exactly when each line reads, giving one row per line |
| Rows.FirstFieldErrorWins | cwxml/bound.py:123-124 | the first field that fails to convert decides the error |
| Rows.FirstRowErrorWins | cwxml/bound.py:118-121 | the first line that fails decides the error |
| Rows.ReadValues | cwxml/bound.py:118-124 | every value read satisfies whatever the number parser guarantees |
| Rows.BlankTextFails | cwxml/bound.py:116-121 | blank text yields one empty line, which fails for any arity but 1 |
| Rows.ShownTokens | cwxml/bound.py:137 | a printable format writes every component as a token |
| Rows.SplitCommaJoin | cwxml/bound.py:119-139 | splitting a ", "-joined line on "," gives the tokens back, each but the first with a leading space |
| Rows.LineShape | cwxml/bound.py:136-140 | a written line is non-empty, has no surrounding space and holds no newline |
| Rows.FieldsRead | cwxml/bound.py:123-124 | fields that each convert read as those values |
| Rows.WrittenFields | cwxml/bound.py:119-139 | a written line splits into one field per component |
| Rows.RowRoundTrip | cwxml/bound.py:116-140 | a written line reads back as the re-read components |
| Rows.BodyIsJoin | cwxml/bound.py:132-142 | the written body is the newline-joined lines plus a final newline |
| Rows.TextLines | cwxml/bound.py:116-142 | stripping and splitting the written text recovers exactly the written lines |
| Rows.LinesRead | cwxml/bound.py:118-124 | lines that each read give those rows |
| Rows.RoundTrip | cwxml/bound.py:114-144 | reading written rows gives the re-read rows |
| Rows.FaithfulRoundTrip | cwxml/bound.py:114-144 | with exact printing, reading written rows gives the rows back |
| Rows.EmptyDoesNotRoundTrip | cwxml/bound.py:116-142 | no rows are written as "\n", which does not read back |
| Xml.Iter | cwxml/bound.py:208 | the walk starts with the element itself |
| Xml.IterAllCovers | cwxml/bound.py:208 | everything below a child is walked |
| Xml.ChildWalkCovered | cwxml/bound.py:208 | the walk reaches every descendant |
| Xml.Dispatch | cwxml/bound.py:208-226 | dispatching never yields more entries than elements |
| Xml.DispatchMembers | cwxml/bound.py:208-226 | every element that classifies is kept with its kind, and nothing else is |
| Xml.DispatchAppend | cwxml/bound.py:208-226 | dispatching a concatenation dispatches each part, in order |
| Xml.DispatchStep | cwxml/bound.py:208-226 | one more element adds itself when it classifies, and nothing otherwise |
| Xml.DispatchSkipsUnknown | cwxml/bound.py:208-226 | an element that does not classify is skipped |
| Xml.DispatchAllKnown | cwxml/bound.py:208-226 | when all elements classify, each appears once, in order |
| Xml.DispatchNoneKnown | cwxml/bound.py:208-226 | when none classify, the result is empty |
| Xml.DispatchWalkIsChildren | cwxml/bound.py:205-228 | for a flat list, the whole walk gives just the direct children |
| Xml.DispatchFlatRun | cwxml/bound.py:205-228 | children with no typed descendants dispatch as themselves |
| Xml.DispatchLeafLike | cwxml/bound.py:205-228 | a child with no typed descendants dispatches as itself |
| Xml.GrandchildDispatched | cwxml/bound.py:208 | a typed grandchild is read as an item of the list, too |
| Fragment.MatrixOr | cwxml/fragment.py:36 | a missing or empty matrix defaults to the identity |
| Fragment.TagOr | cwxml/fragment.py:44 | a missing or empty tag defaults to the class tag |
| Fragment.NewBoneTransformItem | cwxml/fragment.py:32-36 | a bone transform has the given tag, size 3 and the matrix or the identity |
| Fragment.NewTransformItem | cwxml/fragment.py:65-69 | a transform has the given tag, the default size and the matrix or the identity |
| Fragment.NewBoneTransformsList | cwxml/fragment.py:39-45 | a bone transform list starts empty with unk = 1 and tag "BoneTransforms" unless given |
| Fragment.NewArchetype | cwxml/fragment.py:48-62 | a new archetype holds a new, empty composite bound |
| Fragment.NewFragmentDrawable | cwxml/fragment.py:232-236 | a new fragment drawable has a default matrix and all its model sets |
| Fragment.NewChildrenItem | cwxml/fragment.py:80-92 | a new child has a default group index and a new drawable |
| Fragment.NewGroupItem | cwxml/fragment.py:100-135 | a new group has every field at its default |
| Fragment.NewLod | cwxml/fragment.py:146-164 | a new LOD has the given tag, a new archetype and empty transform, group and child lists |
| Fragment.NewPhysics | cwxml/fragment.py:170-174 | physics starts with three LODs tagged LOD1, LOD2, LOD3 |
| Fragment.ShatterRows | cwxml/fragment.py:184-192 | no text or empty text gives no rows; otherwise at least one row, each stripped |
| Fragment.ShatterMapFromXml | cwxml/fragment.py:184-192 | the row loop returns the stripped lines |
| Fragment.ShatterMapToXml | cwxml/fragment.py:194-200 | the rows are written newline-joined |
| Fragment.JoinedRowsTrimmed | cwxml/fragment.py:187-199 | joined rows with non-empty ends have no surrounding space |
| Fragment.ReadJoinedRows | cwxml/fragment.py:184-192 | text that strips to the joined rows reads as those rows |
| Fragment.ShatterRoundTrip | cwxml/fragment.py:184-200 | written rows read back unchanged when their ends are non-empty and no row has surrounding space or newlines |
| Fragment.ShatterEdgeRowsLost | cwxml/fragment.py:184-200 | empty first and last rows do not survive the round trip |
| Fragment.BlankShatterText | cwxml/fragment.py:187-191 | whitespace-only text gives one empty row |
| Fragment.NewWindowItem | cwxml/fragment.py:206-216 | a new window has a default item id and an empty shatter map |
| Fragment.Height | cwxml/fragment.py:222-224 | the height is the number of shatter-map rows, so it is 0 exactly for an empty map |
| Fragment.Width | cwxml/fragment.py:218-220 | the width is 0 at height 0, otherwise the length of the first row |
| Fragment.WindowSizeSurvivesCodec | cwxml/fragment.py:184-224 | a shatter map read from joined rows has their height and width |
| Fragment.BlankWindowSize | cwxml/fragment.py:187-224 | a blank shatter map has height 1 and width 0 |
| Fragment.NewFragment | cwxml/fragment.py:242-259 | a new fragment has a new drawable, an empty bone-transform list, new physics and no windows |
| Scene.Depth | yft/yftexport.py:14-26 | every object tree has at least one level |
| Scene.ChildLower | yft/yftexport.py:20-21 | a child is strictly lower than its parent, so the recursion ends |
| SollumzHelper.Keep | sollumz_helper.py:75-79 | filtering never grows a list |
| SollumzHelper.KeepMembers | sollumz_helper.py:75-79 | an object is kept exactly when it is given and of a wanted type |
| SollumzHelper.KeepDistinct | sollumz_helper.py:75-79 | filtering keeps a list free of repeats |
| SollumzHelper.KeepAppend | sollumz_helper.py:75-79 | filtering a concatenation filters each part |
| SollumzHelper.Selected | sollumz_helper.py:72-80 | every returned object has a wanted type |
| SollumzHelper.ObjectsOfTypes | sollumz_helper.py:72-80 | the loop returns each wanted object followed by its wanted direct children, in order |
| SollumzHelper.AppendWanted | sollumz_helper.py:77-79 | the inner loop appends exactly the wanted direct children of one object, in child order, after what was already collected |
| SollumzHelper.SelectedAppend | sollumz_helper.py:74 | the list is processed one object at a time |
| SollumzHelper.SelectedOne | sollumz_helper.py:75-79 | one object contributes itself when wanted, then its wanted children |
| SollumzHelper.ChildOfOneSplit | sollumz_helper.py:77 | a child of one of a list plus one object is a child of the list or of that object |
| SollumzHelper.SelectedMembers | sollumz_helper.py:72-80 | an object is returned exactly when it is of a wanted type and is given or a direct child of a given object |
| SollumzHelper.GrandchildNotSelected | sollumz_helper.py:77-79 | grandchildren are never returned |
| SollumzHelper.ChildAndParentBothGiven | sollumz_helper.py:72-80 | a wanted child given along with its parent is returned twice |
| YftExport.DirectGroups | yft/yftexport.py:15-19 | the first loop collects exactly the group children, in child order |
| YftExport.GroupList | yft/yftexport.py:14-26 | the returned list starts with the group children, in child order |
| YftExport.Merged | yft/yftexport.py:20-24 | every merge step keeps the group children at the front |
| YftExport.GroupChildrenMembers | yft/yftexport.py:16-18 | the first pass keeps exactly the direct children that are groups |
| YftExport.AppendAbsent | yft/yftexport.py:22-24 | the merge only appends |
| YftExport.AppendAbsentMembers | yft/yftexport.py:22-24 | after the merge, the list holds exactly the old entries and the new ones |
| YftExport.AppendAbsentDistinct | yft/yftexport.py:22-24 | the merge adds no repeats |
| YftExport.AppendAbsentNothingNew | yft/yftexport.py:22-24 | merging entries already present changes nothing |
| YftExport.MergedPrefix | yft/yftexport.py:20-24 | each merge step extends the previous list |
| YftExport.MergedMembers | yft/yftexport.py:20-24 | after merging the first i subtrees, the list holds the direct groups and the groups below the first i |
| YftExport.GroupListMembers | yft/yftexport.py:14-26 | the result holds exactly the groups below the object, at any depth, reached through groups |
| YftExport.BelowUpToCases | yft/yftexport.py:16-24 | a group below the first i children is a direct group child or below one of the first i |
| YftExport.BelowCases | yft/yftexport.py:14-26 | a group below is a direct group child or below one |
| YftExport.BelowIsLowerGroup | yft/yftexport.py:14-26 | everything collected is a group lower in the tree |
| YftExport.BelowClosed | yft/yftexport.py:14-26 | a group below a collected group is itself collected |
| YftExport.BelowParentListed | yft/yftexport.py:14-26 | every collected group is a direct child of the object or of a collected group |
| YftExport.BelowWellLinked | yft/yftexport.py:14-26 | the parent links below a collected group are consistent |
| YftExport.ChildLinksBack | yft/yftexport.py:30 | a child's parent link names its parent |
| YftExport.WalkStep | yft/yftexport.py:20-24 | each iteration of the merge loop extends the list toward the full result |
| YftExport.AppendMissing | yft/yftexport.py:22-24 | the inner loop appends the entries not yet present |
| YftExport.GroupObjects | yft/yftexport.py:14-26 | the collection loop returns the recursive group list |
| YftExport.GroupListAreGroups | yft/yftexport.py:14-26 | only groups are collected |
| YftExport.GroupListDistinct | yft/yftexport.py:20-24 | with distinct children, no group is listed twice |
| YftExport.MergedDistinct | yft/yftexport.py:20-24 | every merge step is free of repeats |
| YftExport.IndexOfId | yft/yftexport.py:32 | `list.index` returns the first position of the object, and fails exactly when it is absent |
| YftExport.ParentGroupIndex | yft/yftexport.py:29-34 | 255 when the parent is not a group; the parent's first position when it is a listed group; an error when there is no parent or a group parent is not listed |
| YftExport.GroupName | yft/yftexport.py:187-188 | a name without "group" is kept; any other name has every "_group" removed and is then cut before its first ".", keeping all of it when no "." remains |
| YftExport.GroupNameOfSuffixed | yft/yftexport.py:187-188 | "n_group.x" is exported as n, for a base name n without "_" or "." |
| YftExport.GroupNameWithoutSuffix | yft/yftexport.py:187-188 | a name containing "group" but not "_group", and no ".", is kept |
| YftExport.GroupSuffixMeansGroup | yft/yftexport.py:187 | every "_group" name takes the renaming branch |
| YftExport.FragmentName | yft/yftexport.py:103 | the fragment name is the object name up to its first "." |
| YftExport.MapResult | yft/yftexport.py:185-255 | a loop that succeeds gives one record per object |
| YftExport.MapResultAll | yft/yftexport.py:185-255 | the loop succeeds exactly when every step does, with each step's record in order |
| YftExport.MapResultFirstErr | yft/yftexport.py:185-255 | a failing loop raises the error of its first failing step |
| YftExport.MapResultNext | yft/yftexport.py:185-255 | a step appends its record or stops the loop with its error |
| YftExport.MapResultErrSticks | yft/yftexport.py:185-255 | once a prefix fails, the whole loop fails the same way |
| YftExport.Transposed | yft/yftexport.py:242 | transposition swaps rows and columns |
| YftExport.ChildTransform | yft/yftexport.py:242-248 | a child's transform is its transposed basis with the translation row shifted by minus the LOD's position offset |
| YftExport.ChildTransformRestores | yft/yftexport.py:242-248 | adding the offset back and transposing recovers the basis |
| YftExport.ChildTransformAtOrigin | yft/yftexport.py:242-248 | with a zero offset, the transform is the plain transpose |
| YftExport.ArchetypeOf | yft/yftexport.py:170-182 | a zero archetype mass raises; otherwise the archetype takes the mass and its inverse, and the bounds are built from the bound objects among the groups and their children |
| YftExport.ArchetypeInverseMass | yft/yftexport.py:171-172 | mass times inverse mass is 1 |
| YftExport.GroupEntry | yft/yftexport.py:186-216 | a group record exists exactly when its parent index does; it has the renamed name, that parent index, the group settings, and restoring strength left at its default |
| YftExport.DrawableOf | yft/yftexport.py:97-98 | the fragment drawable is built from the drawable object with all its model sets |
| YftExport.ChildDrawable | yft/yftexport.py:231-240 | a child shows its drawable when it has one, otherwise a drawable with an identity matrix |
| YftExport.ChildEntry | yft/yftexport.py:219-250 | a child record exists exactly when its parent is in the group list; the group index is that position, the transform is the child transform, and the drawable is as above |
| YftExport.WindowEntry | yft/yftexport.py:252-255 | a window record exists exactly when its parent index does, and its item id is that index |
| YftExport.LodTag | yft/yftexport.py:149 | a LOD tag is "LOD" followed by digits that `int()` reads as the position plus one |
| YftExport.LodTagsDistinct | yft/yftexport.py:141-149 | different positions give different LOD tags |
| YftExport.Firsts | yft/yftexport.py:249-250 | the transform list is the first part of each child pair |
| YftExport.Seconds | yft/yftexport.py:249-250 | the child list is the second part of each child pair |
| YftExport.PairsSnoc | yft/yftexport.py:249-250 | one more child appends one transform and one child record |
| YftExport.LodOf | yft/yftexport.py:141-255 | an exported LOD carries its "LOD" + position tag and its settings |
| YftExport.ExportGroups | yft/yftexport.py:184-217 | the group loop returns the group records in list order, or the first error |
| YftExport.ExportChildren | yft/yftexport.py:219-250 | the child loop returns matching transform and child lists in order, or the first error |
| YftExport.ExportWindows | yft/yftexport.py:252-255 | the window loop returns the window records in order, or the first error |
| YftExport.ExportLod | yft/yftexport.py:141-255 | one iteration of the LOD loop computes the LOD's specification |
| YftExport.LodRecords | yft/yftexport.py:184-255 | an exported LOD has one group per collected group, one transform and one child per child object, and one window per window object |
| YftExport.LodIndexInvariant | yft/yftexport.py:184-250 | every group's parent index is 255 or a position in the group list, and every child's group index is the position in the group list of that child's own parent |
| YftExport.BelowGroupParent | yft/yftexport.py:219-222 | any direct child of a collected group has a group parent that is in the list |
| YftExport.GroupParentFound | yft/yftexport.py:189 | in a consistent tree, every collected group's parent index resolves |
| YftExport.LodExportSucceeds | yft/yftexport.py:141-255 | in a consistent tree, a LOD with non-zero mass always exports |
| YftExport.BelowSelected | yft/yftexport.py:143-146 | every object that the type filter returns from the group list has a listed group parent |
| YftExport.LodErrorKinds | yft/yftexport.py:141-255 | a LOD fails only through a zero mass or a missing parent |
| YftExport.LastOfType | yft/yftexport.py:87-90 | the object found has the wanted type |
| YftExport.LastOfTypeNone | yft/yftexport.py:87-92 | nothing is found exactly when no child has the type |
| YftExport.LastOfTypeIsLast | yft/yftexport.py:88-90 | the object found is the last child of that type |
| YftExport.Enumerate | yft/yftexport.py:141 | each LOD is paired with its position |
| YftExport.SlotOf | yft/yftexport.py:257-266 | a slot is empty exactly when no LOD has that type |
| YftExport.SlotOfLast | yft/yftexport.py:257-262 | a filled slot holds the record of a LOD of that type, and no later LOD has that type |
| YftExport.AllWindows | yft/yftexport.py:252-255 | every window record of the fragment is one of some LOD's window records |
| YftExport.FragmentOf | yft/yftexport.py:84-268 | no drawable child raises; otherwise the fragment takes the name before the first "." and the drawable of the last drawable child |
| YftExport.DrawableChild | yft/yftexport.py:87-90 | the search loop returns the last drawable child |
| YftExport.LodChildren | yft/yftexport.py:132-135 | the LOD loop collects the LOD children in order |
| YftExport.LodLoopStep | yft/yftexport.py:252-262 | one more LOD updates each slot only if its type matches, and appends its windows |
| YftExport.FragmentFromObject | yft/yftexport.py:84-268 | the export loop computes the fragment specification |
| YftExport.FragmentNeedsDrawable | yft/yftexport.py:87-92 | the no-drawable error is raised exactly when no child is a drawable |
| YftExport.FragmentParts | yft/yftexport.py:132-266 | each physics slot and the window list come from the LOD exports |
| YftExport.SlotHoldsLast | yft/yftexport.py:141-266 | slot t is empty exactly when no LOD has type t; otherwise it holds the export of the last LOD of type t, tagged by that LOD's position |
| YftExport.FragmentExportSucceeds | yft/yftexport.py:84-268 | a consistent tree with a drawable and LODs of non-zero mass always exports |
| YftExport.AllWindowsCount | yft/yftexport.py:252-255 | the fragment gets one window per window object in every LOD |
| YftExport.FragmentWindowCount | yft/yftexport.py:141-255 | the fragment's window count is the number of window objects over all LODs |
| YftExport.Basename | yft/yftexport.py:284 | the base name is the part after the last "/" |
| YftExport.StripTrailingSlashes | yft/yftexport.py:283 | only trailing slashes are removed |
| YftExport.Dirname | yft/yftexport.py:283 | the directory is a prefix of the path |
| YftExport.PathJoin | yft/yftexport.py:283 | an absolute part replaces the base; otherwise the parts are joined with one "/" |
| YftExport.HiFileName | yft/yftexport.py:284 | a base name without ".yft.xml" is unchanged, and the new name holds no "/" when the old one has none |
| YftExport.HiPath | yft/yftexport.py:283-284 | a bare file name becomes its high-detail name |
| YftExport.HiFileNameOfPlain | yft/yftexport.py:284 | "n.yft.xml" becomes "n_hi.yft.xml" |
| YftExport.HiPathInDirectory | yft/yftexport.py:283-284 | the "_hi" file is written in the same directory |
| YftExport.HiPathAtRoot | yft/yftexport.py:283-284 | a file at the root stays at the root |
| YftExport.ClearedDrawable | yft/yftexport.py:276-282 | clearing removes only the lower model sets |
| YftExport.ClearedChild | yft/yftexport.py:280-282 | clearing a child changes only its drawable |
| YftExport.HiOf | yft/yftexport.py:275-282 | the high-detail pass fails exactly when there is no LOD 1 |
| YftExport.HiChangesOnlyLowerModels | yft/yftexport.py:275-282 | only the lower model sets of the fragment drawable and the LOD 1 child drawables change |
| YftExport.HiIdempotent | yft/yftexport.py:275-282 | clearing twice is the same as once |
| YftExport.HiDetail | yft/yftexport.py:275-282 | the in-place clearing loop computes the high-detail fragment |
| YftExport.ExportYft | yft/yftexport.py:271-285 | the fragment is written to the path, and with the option the high-detail fragment is then written to the "_hi" path; any error stops the export |

## Left out

- Float parsing and printing: numbers are `real`. Python's `float()` and
  `str()` on floats are a parameter (`Rows.Format`), and the round trip is
  stated for any format that prints tokens. `int()` on a string and
  `str()` on an integer are modelled in `Decimal` for ASCII text.
- Bound and fragment record fields that only hold a value (the `Slots`
  default/value pair). The generic `ElementTree` reading and writing of
  those fields in `cwxml/element.py` is not part of this model.
- `drawable_from_object`: a drawable record only records which object it
  was built from (`builtFrom`). Shader groups, skeletons, joints, lights
  (`lights_from_object`) and `get_used_materials` are not part of this
  model.
- `obj_to_vehicle_window` and `image_to_shattermap`: the window record of a
  window object is a parameter (`Env.window`).
- `composite_from_objects`, `divide_vector_inv`, `get_bound_center`,
  `get_sphere_radius`, `get_fragment_drawable` and `BOUND_TYPES` are
  parameters of `Env`.
- The bone-transform loop (yft/yftexport.py:118-130) depends on armature
  bones and parenting. The exported fragment keeps an empty bone-transform
  list.
- The `index` parameter of `get_group_objects` is counted but never used,
  so it is not modelled.
- Object identity: Blender objects are compared by identity. The model
  compares parent links by id and list membership by value; ids are
  assumed to identify objects.
- Paths follow POSIX `os.path` (separator "/").
- Writing files: `ExportYft` returns the list of (path, fragment) writes.
- YftExport.HiDetail: the source changes the exported records in place, and
  the first file has already been written. The model builds the
  high-detail fragment as a new value, so aliasing between the two writes
  is not modelled.
- The ten LOD tuning vectors and scalars are copied as one `LodTuning`
  value, and the group settings as one `GroupTuning` value.
  `prop_array_to_vector` is the identity on them.
- `get_sollumz_objects_from_objects` tests `in sollum_type`. For a single
  type the source relies on `in` on an enum string; the model uses a set
  of types in every case.
- YftExport.FragmentOf: the bounding-sphere centre and radius of the
  fragment come from `Env` and are not stated further.
- Decimal.ParseInt: accepts only an optional sign followed by ASCII digits.
  Python's `int()` also accepts underscores between digits ("1_000") and
  non-ASCII decimal digits. The model reads such colour channels and
  octant tokens as invalid numbers.
- Bound.VerticesToXml: `VerticesProperty.to_xml` raises TypeError on an
  entry that is not a vector. The model types the list as vectors, so
  this error path is not modelled.
- Reading a `.yft.xml` file back into a fragment (`YFT.from_xml_file`) and
  the `YBN` wrapper are not part of this model.
