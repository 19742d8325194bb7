# geometry3 core utilities — a Dafny model

This project models the core utilities of the geometry3 C++ library (namespace `g3`), a port of the
C# geometry3Sharp mesh-processing code:

- the triangle index helpers (`index_util.h`): finding a vertex, an unordered or ordered edge and
  the opposite vertex in a triangle, orienting an edge to follow a triangle's winding, and
  remapping indices;
- the mesh-topology containers `EdgeLoop` and `EdgeSpan`: a closed (or open) chain of mesh vertices
  together with the mesh edges that join them. They are built from edges or from vertices, reversed,
  classified as internal or boundary, searched, compared and copied out as spans;
- `MeshConstraints`: per-edge refinement flags (no flip / split / collapse, preserve topology), per-vertex
  fixed / projection-target constraints, and their lookup tables;
- `IDMap`: a dense, sparse or shift mapping between old and new ids;
- `object_pool`: a free-list allocator that recycles released slots;
- `SphereGenerator`: the UV-sphere generator (vertex rings, top cap, body quads, bottom cap);
- `parse_util`: character containment and delimiter splitting of strings, with and without empty tokens;
- `iterator_util`: the mapped, filtered and expanding iterator adaptors;
- `ProgressCancel`: sticky cooperative cancellation;
- `profile_util`: `BlockTimer` and its `"mm:ss.ms"` / `"ss.ms"` time formatting.

One Dafny module models each source file. The mesh (`DMesh3`) that the loop and span classes query is
abstracted in `MeshModel` as a table of edges. Each edge has its two vertex ids, a boundary flag, and
whether the triangle walks it reversed. `FindEdge` returns the first edge joining two vertices.
Positions and distances enter as function parameters (`d2`, `near`, `dist`). Clocks and user callbacks
are oracle objects that answer the n-th question with a fixed function of n.

Where the source has undefined behaviour or an evident slip, the model keeps two members. The
"as written" member reproduces the code with its failure as an error value, and a lemma or small
scenario exhibits the failure. The corrected member is the one the rest of the model uses. Both are
listed under "## Findings".

## Model

| member | source | states |
|---|---|---|
| IndexUtil.SamePairUnordered | src/util/index_util.h:37-42 | true exactly when the two pairs hold the same two values in either order |
| IndexUtil.SamePairUnorderedSymmetric | src/util/index_util.h:37-42 | the test is unchanged by swapping inside either pair or swapping the pairs |
| IndexUtil.FindTriIndex | src/util/index_util.h:45-54 | returns the first slot holding the vertex, or InvalidID exactly when the triangle does not contain it |
| IndexUtil.FindEdgeIndexInTri | src/util/index_util.h:57-66 | returns the first slot j whose edge (j, j+1 mod 3) joins a and b in either direction; InvalidID exactly when no edge does |
| IndexUtil.FindTriOrderedEdge | src/util/index_util.h:69-78 | returns the first slot whose edge runs from a to b in winding order; InvalidID exactly when none does |
| IndexUtil.EdgeIndexFoundIffBothVertices | src/util/index_util.h:57-66 | in a triangle of distinct vertices an edge slot is found exactly when a and b are two different vertices of it |
| IndexUtil.OtherSlotIsThirdVertex | src/util/index_util.h:80-88 | the slot after the found edge holds the vertex that is neither a nor b |
| IndexUtil.OneDirectionOnly | src/util/index_util.h:68-78 | for two different vertices of a triangle of distinct vertices, exactly one of a→b and b→a follows the winding |
| IndexUtil.FindTriOtherVtx | src/util/index_util.h:81-88 | returns the triangle's third vertex when a–b is one of its edges, InvalidID otherwise |
| IndexUtil.FindTriOtherVtxInArray | src/util/index_util.h:90-98 | the same for triangle ti of a flat index array (slots 3ti..3ti+2) |
| IndexUtil.FindTriOtherIndex | src/util/index_util.h:101-108 | returns the slot of the third vertex when a–b is an edge, InvalidID otherwise |
| IndexUtil.FindOtherIndexAndVtx | src/util/index_util.h:82-108 | returns the slot of the third vertex and that vertex together; both are InvalidID when a–b is not an edge |
| IndexUtil.OrientTriEdge | src/util/index_util.h:110-137 | swaps a and b exactly when the source's slot test says so; for two different vertices of a triangle of distinct vertices the result runs in winding order |
| IndexUtil.OrientTriEdgeAndFindOtherVtx | src/util/index_util.h:139-150 | when a–b is an edge, returns it in winding order plus the third vertex; otherwise returns InvalidID |
| IndexUtil.ApplyMap | src/util/index_util.h:160-178 | the value-returning overloads: each of the three components is replaced by its image under the table |
| IndexUtil.ApplyIdentityMap | src/util/index_util.h:160-164 | remapping through the identity table leaves the triangle unchanged |
| IndexUtil.ApplyMapComposes | src/util/index_util.h:160-178 | remapping through m1 and then m2 equals remapping once through their composition |
| IndexUtil.ApplyMapInPlace | src/util/index_util.h:152-158 | each of the three entries is replaced in place by its image under the table |
| IDMaps.AsUnsigned | src/util/IDMap.h:50-56 | an int passed as the unsigned int size converts the way C++ does: values in range are kept and negative ones wrap modulo 2^32 |
| IDMaps.IDMap.constructor | src/util/IDMap.h:48 | a default map is sparse and empty |
| IDMaps.IDMap.OfType | src/util/IDMap.h:50-56 | a dense map starts with both tables of the (unsigned-converted) size, filled with InvalidID; a shift map takes the size as its shift |
| IDMaps.IDMap.WithSizes | src/util/IDMap.h:58-61 | a dense map whose old→new and new→old tables have the given sizes, all InvalidID |
| IDMaps.IDMap.Clear | src/util/IDMap.h:67-77 | empties the sparse maps or the dense tables, by mode, and leaves everything else as it was |
| IDMaps.IDMap.Resize | src/util/IDMap.h:80-89 | in dense mode both tables are reset to the new sizes, all InvalidID; other modes are unchanged |
| IDMaps.IDMap.OldSizeAsWritten | src/util/IDMap.h:91-97 | as written, dense mode reports the size of the unused sparse map |
| IDMaps.IDMap.NewSizeAsWritten | src/util/IDMap.h:99-105 | as written, dense mode reports the size of the unused sparse map |
| IDMaps.IDMap.OldSize | src/util/IDMap.h:91-97 | in dense mode it is exactly the bound below which an old id can be looked up; 0 in the other modes |
| IDMaps.IDMap.NewSize | src/util/IDMap.h:99-105 | in dense mode it is exactly the bound below which a new id can be looked up; 0 in the other modes |
| IDMaps.IDMap.SetShift | src/util/IDMap.h:107-111 | sets the shift and nothing else |
| IDMaps.IDMap.SetMap | src/util/IDMap.h:113-125 | records vOld→vNew (and vNew→vOld unless vNew is InvalidID) in the table of the current mode; afterwards GetNew(vOld) is vNew and GetOld(vNew) is vOld |
| IDMaps.IDMap.GetNew | src/util/IDMap.h:127-136 | vOld + shift in shift mode, which GetOld undoes; a sparse lookup of an unmapped id gives InvalidID; a dense lookup reads the table |
| IDMaps.IDMap.GetOld | src/util/IDMap.h:137-146 | the reverse lookup: vNew - shift in shift mode, the reverse table's entry or InvalidID in sparse mode, the reverse table's entry in dense mode |
| IDMaps.IDMap.Apply | src/util/IDMap.h:153-175 | every array entry is replaced by its lookup in the chosen direction; a zero shift leaves the array unchanged |
| IDMaps.IDMap.ShiftRoundTrips | src/util/IDMap.h:127-146 | in shift mode GetNew and GetOld are inverse to each other |
| IDMaps.DenseSizesReadSparseMaps | src/util/IDMap.h:91-105 | a dense 3→4 map reports sizes 0 and 0 as written, and 3 and 4 when corrected |
| IDMaps.SparseMapScenario | src/util/IDMap.h:113-146 | after SetMap(2, 7) and SetMap(5, InvalidID) on a sparse map, 2 and 7 map to each other and unmapped ids read InvalidID |
| ObjectPools.ObjectPool.constructor | src/util/object_pool.h:93-95 | a new pool has no slots and an empty free list |
| ObjectPools.ObjectPool.Allocate | src/util/object_pool.h:113-124 | pops the most recently released slot when there is one, otherwise appends a new slot; the returned slot holds a fresh blank object |
| ObjectPools.ObjectPool.Release | src/util/object_pool.h:126-129 | pushes the slot on the free list; the store is unchanged |
| ObjectPools.ObjectPool.ResetPool | src/util/object_pool.h:131-135 | drops every slot and the free list |
| ObjectPools.ObjectPool.FreePool | src/util/object_pool.h:137-141 | drops every slot and the free list |
| ObjectPools.ReleaseThenAllocate | src/util/object_pool.h:113-129 | allocating right after a release hands back the same slot, reset to blank, and leaves the free list and pool size as before |
| ObjectPools.DoubleReleaseSharesSlot | src/util/object_pool.h:126-129 | releasing one slot twice makes the next two allocations return the same slot |
| MeshConstraintsModel.FlagValues | src/mesh/MeshConstraints.h:38-48 | the three "no" bits are disjoint, together they make FullyConstrained = 7, and PreserveTopology is a separate bit |
| MeshConstraintsModel.NewEdgeConstraint | src/mesh/MeshConstraints.h:60-64 | a default edge constraint has no flags, no target and tracking set -1 |
| MeshConstraintsModel.EdgeConstraintWithFlags | src/mesh/MeshConstraints.h:66-70 | carries exactly the given flags, with no target and tracking set -1 |
| MeshConstraintsModel.EdgeConstraintWithTarget | src/mesh/MeshConstraints.h:72-76 | carries the given flags and target, with tracking set -1 |
| MeshConstraintsModel.CanFlip | src/mesh/MeshConstraints.h:78-80 | true exactly when the NoFlip bit is clear |
| MeshConstraintsModel.CanSplit | src/mesh/MeshConstraints.h:81-83 | true exactly when the NoSplit bit is clear |
| MeshConstraintsModel.CanCollapse | src/mesh/MeshConstraints.h:84-86 | true exactly when the NoCollapse bit is clear |
| MeshConstraintsModel.NoModifications | src/mesh/MeshConstraints.h:87-89 | true exactly when all three of NoFlip, NoSplit and NoCollapse are set; such a constraint is never unconstrained |
| MeshConstraintsModel.IsUnconstrained | src/mesh/MeshConstraints.h:91-93 | true exactly when there is no target, flip, split and collapse are all allowed, and no other flag such as PreserveTopology is set |
| MeshConstraintsModel.NoModificationsMeansNothingAllowed | src/mesh/MeshConstraints.h:78-89 | NoModifications holds exactly when flip, split and collapse are all forbidden |
| MeshConstraintsModel.PreserveTopologyIndependent | src/mesh/MeshConstraints.h:78-89 | setting or clearing PreserveTopology changes none of the flip, split and collapse permissions |
| MeshConstraintsModel.PermissionBitsIndependent | src/mesh/MeshConstraints.h:78-86 | each permission depends only on its own bit |
| MeshConstraintsModel.FactoryPermissions | src/mesh/MeshConstraints.h:91-97 | Unconstrained allows everything, NoFlips forbids only flips, FullyConstrained forbids every modification |
| MeshConstraintsModel.NewVertexConstraint | src/mesh/MeshConstraints.h:112-116 | a default vertex constraint is not fixed, has an invalid set id and no target |
| MeshConstraintsModel.VertexConstraintFixed | src/mesh/MeshConstraints.h:118-122 | carries the fixed flag and set id, with no target |
| MeshConstraintsModel.VertexConstraintOnTarget | src/mesh/MeshConstraints.h:124-128 | carries the target, not fixed, with an invalid set id |
| MeshConstraintsModel.FixedExcludesTarget | src/mesh/MeshConstraints.h:109-131 | no constructor yields a vertex that is both fixed and projected; the Unconstrained and Pinned presets are as documented |
| MeshConstraintsModel.MeshConstraints.constructor | src/mesh/MeshConstraints.h:140-142 | both tables start empty and the set-id counter at 0 |
| MeshConstraintsModel.MeshConstraints.AllocateSetID | src/mesh/MeshConstraints.h:144-146 | returns the counter and then increments it |
| MeshConstraintsModel.MeshConstraints.HasEdgeConstraint | src/mesh/MeshConstraints.h:148-150 | an edge with a stored constraint makes HasConstraints true; SetOrUpdateEdgeConstraint and ClearEdgeConstraint state for which ids it holds |
| MeshConstraintsModel.MeshConstraints.GetEdgeConstraint | src/mesh/MeshConstraints.h:152-158 | the stored constraint, or Unconstrained for an edge without one |
| MeshConstraintsModel.MeshConstraints.SetOrUpdateEdgeConstraint | src/mesh/MeshConstraints.h:160-162 | afterwards the edge reads back the given constraint and every other edge reads as before |
| MeshConstraintsModel.MeshConstraints.ClearEdgeConstraint | src/mesh/MeshConstraints.h:164-166 | afterwards the edge reads Unconstrained and every other edge reads as before |
| MeshConstraintsModel.MeshConstraints.FindConstrainedEdgesBySetID | src/mesh/MeshConstraints.h:168-173 | keeps the caller's list and appends exactly the edges whose tracking set is setID, in ascending id order (std::map order) |
| MeshConstraintsModel.ListingUnique | src/mesh/MeshConstraints.h:168-173 | there is only one ascending, duplicate-free listing of a set, so the appended list is fully determined |
| MeshConstraintsModel.MeshConstraints.HasVertexConstraint | src/mesh/MeshConstraints.h:177-179 | a vertex with a stored constraint makes HasConstraints true; TryGetVertexConstraint, SetOrUpdateVertexConstraint and ClearVertexConstraint state for which ids it holds |
| MeshConstraintsModel.MeshConstraints.GetVertexConstraint | src/mesh/MeshConstraints.h:181-187 | the stored constraint, or the unconstrained vertex for a vertex without one |
| MeshConstraintsModel.MeshConstraints.TryGetVertexConstraint | src/mesh/MeshConstraints.h:189-195 | reports whether the vertex has a constraint and returns it, leaving the caller's value untouched otherwise |
| MeshConstraintsModel.MeshConstraints.SetOrUpdateVertexConstraint | src/mesh/MeshConstraints.h:197-199 | afterwards the vertex reads back the given constraint and every other vertex reads as before |
| MeshConstraintsModel.MeshConstraints.ClearVertexConstraint | src/mesh/MeshConstraints.h:201-203 | afterwards the vertex reads unconstrained and every other vertex reads as before |
| MeshConstraintsModel.MeshConstraints.HasConstraints | src/mesh/MeshConstraints.h:210-212 | true exactly when the edge table or the vertex table is non-empty |
| MeshConstraintsModel.AllocateThreeSetIDs | src/mesh/MeshConstraints.h:144-146 | a fresh table hands out set ids 0, 1 and 2 in turn |
| MeshGenerators.SphereGenerator.constructor | src/mesh/MeshGenerators.h:46-51 | radius 1 with 8 slices and 8 stacks |
| MeshGenerators.SphereGenerator.Generate | src/mesh/MeshGenerators.h:54-96 | appends the sphere's vertex list and its cap, body and cap triangles, all in group 0 |
| MeshGenerators.SphereGenerator.AppendVertices | src/mesh/MeshGenerators.h:57-70 | appends the top pole, the rings of stacks 1..nStacks-1 slice by slice, then the bottom pole |
| MeshGenerators.SphereGenerator.AppendTopCap | src/mesh/MeshGenerators.h:72-76 | appends one fan triangle per slice around the top pole |
| MeshGenerators.SphereGenerator.AppendBody | src/mesh/MeshGenerators.h:78-89 | appends two triangles per slice for every band between adjacent rings |
| MeshGenerators.SphereGenerator.AppendQuadRow | src/mesh/MeshGenerators.h:79-88 | appends one band's quads as triangle pairs, in slice order |
| MeshGenerators.SphereGenerator.AppendBottomCap | src/mesh/MeshGenerators.h:91-96 | appends one fan triangle per slice around the bottom pole |
| MeshGenerators.SphereCounts | src/mesh/MeshGenerators.h:54-96 | a sphere has 2 + (stacks-1)·slices vertices and 2·slices·(stacks-1) triangles |
| MeshGenerators.SphereVertexIds | src/mesh/MeshGenerators.h:57-70 | vertex 1 + j·slices + i is ring j+1, slice i; vertex 0 and the last vertex are the poles |
| MeshGenerators.CapCorners | src/mesh/MeshGenerators.h:72-96 | every cap triangle joins a pole to two neighbouring slices of the first or last ring |
| MeshGenerators.QuadCorners | src/mesh/MeshGenerators.h:78-89 | each quad's two triangles cover slices i and i+1 (wrapping) of rings j+1 and j+2 |
| MeshGenerators.IndicesInRange | src/mesh/MeshGenerators.h:54-96 | every triangle index names an existing vertex |
| MeshGenerators.BodyPaired | src/mesh/MeshGenerators.h:78-89 | body triangles come in pairs that share a diagonal |
| MeshGenerators.DefaultSphere | src/mesh/MeshGenerators.h:46-96 | the default sphere has 58 vertices and 112 triangles, all in group 0 |
| ParseUtil.Contains | src/util/parse_util.h:57-59 | true exactly when the character occurs in the string |
| ParseUtil.ContainsSub | src/util/parse_util.h:60-62 | true exactly when the substring occurs at some position |
| ParseUtil.ScanTokens | src/util/parse_util.h:64-85 | the character scanning loop produces exactly the tokens of its recursive description |
| ParseUtil.SplitAsWritten | src/util/parse_util.h:64-85 | as written, an empty string is an error (iterator past end) and scanning starts after the first character |
| ParseUtil.Split | src/util/parse_util.h:64-85 | the tokens are the delimiter-separated lines of the string, with empty ones dropped when asked |
| ParseUtil.Getline | src/util/parse_util.h:89-91 | returns the text up to the next delimiter and the position after it |
| ParseUtil.SplitLines | src/util/parse_util.h:87-97 | the getline loop yields the delimiter-separated lines, with empty ones dropped when asked |
| ParseUtil.GetlineNoDelimiter | src/util/parse_util.h:87-97 | no token contains the delimiter |
| ParseUtil.GetlineJoin | src/util/parse_util.h:87-97 | joining the tokens with the delimiter rebuilds the string, up to a final trailing delimiter |
| ParseUtil.ScanIsGetline | src/util/parse_util.h:64-97 | the scanning split and the getline split produce the same tokens |
| ParseUtil.SplitOverloadsAgree | src/util/parse_util.h:64-97 | the two overloads agree on every string that does not start with the delimiter |
| ParseUtil.LeadingDelimiterNotSplit | src/util/parse_util.h:68-71 | on ",a" the scanning split returns [",a"], while the getline split returns ["", "a"] |
| IteratorUtil.MappedIterator.constructor | src/util/iterator_util.h:68-71 | wraps a base position and the mapping function |
| IteratorUtil.MappedIterator.Next | src/util/iterator_util.h:52-66 | advances the base by one |
| IteratorUtil.MappedVisitedIsMap | src/util/iterator_util.h:59-66 | dereferencing and advancing from position `from` to end yields one value per base element, the i-th being mapF of base[from + i] |
| IteratorUtil.NextMatch | src/util/iterator_util.h:104-108 | the first position after c whose element passes the filter, or end; every element skipped fails the filter |
| IteratorUtil.Filtered | src/util/iterator_util.h:99-116 | the reference list of accepted elements, all passing the filter |
| IteratorUtil.FilteredStartAsWritten | src/util/iterator_util.h:110-116 | as written, constructing at the end position dereferences it; elsewhere it agrees with the corrected start |
| IteratorUtil.FilteredStart | src/util/iterator_util.h:110-116 | the first accepted position at or after cur, or end; every element skipped fails the filter |
| IteratorUtil.FilteredIterator.constructor | src/util/iterator_util.h:110-116 | the new iterator is positioned at FilteredStart and is valid |
| IteratorUtil.FilteredIterator.Deref | src/util/iterator_util.h:81-118 | a valid iterator before the end yields an element the filter accepts |
| IteratorUtil.FilteredIterator.GotoNext | src/util/iterator_util.h:104-108 | the skipping loop stops at NextMatch |
| IteratorUtil.FilteredIterator.Next | src/util/iterator_util.h:104-108 | ++ moves strictly forward to the next accepted element or to end |
| IteratorUtil.VisitedIsFiltered | src/util/iterator_util.h:99-116 | iterating from construction to end visits exactly the accepted elements of the range, in order |
| IteratorUtil.GotoNextExpand | src/util/iterator_util.h:166-174 | stops at the end or at an output (state != -1); on the same element the output is expand(element, state), after moving on it is expand(element, -1) of the element it stops at; every element skipped was reported done at once |
| IteratorUtil.ExpandIterator.constructor | src/util/iterator_util.h:176-182 | starts with state -1 and moves straight to the first output |
| IteratorUtil.ExpandIterator.GotoNext | src/util/iterator_util.h:166-174 | the expansion loop ends in the state GotoNextExpand describes |
| IteratorUtil.ExpandIterator.Next | src/util/iterator_util.h:166-174 | ++ is one goto_next step |
| IteratorUtil.ExpandEnumerable.constructor | src/util/iterator_util.h:205-209 | keeps the begin and end positions of the range and the expansion function |
| IteratorUtil.ExpandEnumerable.Begin | src/util/iterator_util.h:218-220 | an iterator in the range, at the end or at an output; on a non-empty range its state is GotoNextExpand of the begin position with state -1, on an empty one it is at the end with state -1 |
| IteratorUtil.ExpandEnumerable.End | src/util/iterator_util.h:222-224 | an iterator at the end position with state -1 |
| IteratorUtil.FilteredEmptyRangeDereferencesEnd | src/util/iterator_util.h:110-116 | on an empty range the constructor as written dereferences end, while the corrected start stays at end |
| ProgressCancels.CancelFunction.constructor | src/util/ProgressCancel.h:49-56 | wraps the callback; nothing has been asked yet |
| ProgressCancels.CancelFunction.Cancelled | src/util/ProgressCancel.h:49-56 | asks the callback exactly once and returns its answer |
| ProgressCancels.ProgressCancel.constructor | src/util/ProgressCancel.h:67-71 | takes the source and starts not cancelled |
| ProgressCancels.ProgressCancel.FromFunction | src/util/ProgressCancel.h:72-74 | wraps the callback in a new source and starts not cancelled |
| ProgressCancels.ProgressCancel.Cancelled | src/util/ProgressCancel.h:79-84 | once cancelled it returns true without asking the source; otherwise it asks once and records the answer |
| ProgressCancels.CancellationIsSticky | src/util/ProgressCancel.h:79-84 | after a true answer, later calls answer true and the source is asked only once in total |
| ProfileUtil.TruncDiv | src/util/profile_util.h:85-100 | C++ integer division truncates toward zero: the remainder has the sign of the dividend |
| ProfileUtil.SplitQuotient | src/util/profile_util.h:87-94 | the subtraction chain leaves seconds = (ms mod 60000) / 1000 and milliseconds = ms mod 1000 |
| ProfileUtil.DigitsRoundTrip | src/util/profile_util.h:94-97 | the decimal digits that %d prints read back as the number |
| ProfileUtil.ZeroPadded | src/util/profile_util.h:94 | %0wd: as wide as the number or w, whichever is larger; for n >= 0, zeros followed by the number's digits |
| ProfileUtil.SpacePadded | src/util/profile_util.h:94 | %wd: as wide as the number or w, whichever is larger; spaces followed by the number's text |
| ProfileUtil.MinuteDecomposition | src/util/profile_util.h:87-94 | with a minute or more, the span is minutes, seconds under 60 and milliseconds under 1000 |
| ProfileUtil.SubMinuteDecomposition | src/util/profile_util.h:95-98 | under a minute, the span is seconds and milliseconds under 1000 |
| ProfileUtil.MinuteFormWidth | src/util/profile_util.h:94 | for 1 to 99 minutes the text is exactly 11 characters wide |
| ProfileUtil.SubMinuteForm | src/util/profile_util.h:97 | under a minute the text is two-digit seconds, a dot, and the milliseconds unpadded |
| ProfileUtil.SubMinuteExample | src/util/profile_util.h:85-100 | 1.234 s prints as "01.234" |
| ProfileUtil.UnpaddedMillisecondsExample | src/util/profile_util.h:85-100 | 1.005 s prints as "01.5", because the milliseconds are not zero-padded |
| ProfileUtil.ToTimeString | src/util/profile_util.h:85-100 | the text is at least 4 characters, and at least 11 from one minute on; ToTimeStringFormat gives its exact content for every non-negative span |
| ProfileUtil.MinuteParts | src/util/profile_util.h:87-94 | from one minute on, the printed parts are ms / 60000, (ms mod 60000) / 1000 and ms mod 1000 |
| ProfileUtil.SubMinuteParts | src/util/profile_util.h:95-98 | below a minute, the printed parts are 0, ms / 1000 and ms mod 1000 |
| ProfileUtil.ToTimeStringFormat | src/util/profile_util.h:85-100 | every non-negative span is printed in the minute or sub-minute format, with its parts read off its whole milliseconds |
| ProfileUtil.MinuteExample | src/util/profile_util.h:85-100 | 61.005 s prints as "01:01.    5", because the milliseconds are space-padded to five |
| ProfileUtil.BlockTimer.constructor | src/util/profile_util.h:47-53 | keeps the label, zeroes the total, and is running (with one clock reading) exactly when asked to start; otherwise both time points stay at the clock's epoch (0) and the clock is not read |
| ProfileUtil.UnstartedTimerScenario | src/util/profile_util.h:39-53 | a timer never started measures from the epoch: it prints "00.0", and accumulating adds the whole clock reading (5 s) to the total |
| ProfileUtil.BlockTimer.Start | src/util/profile_util.h:54-58 | reads the clock once into both end points and sets running |
| ProfileUtil.BlockTimer.Stop | src/util/profile_util.h:59-62 | reads the clock once into the end point and clears running |
| ProfileUtil.BlockTimer.Accumulate | src/util/profile_util.h:67-72 | stops, adds the stopped span to the total and, on request, takes a new start reading; the timer stays stopped |
| ProfileUtil.BlockTimer.Reset | src/util/profile_util.h:73-76 | takes two clock readings and keeps the second as start and end; running, with the total unchanged |
| ProfileUtil.BlockTimer.AccumulatedString | src/util/profile_util.h:78-80 | for a non-negative total of ms whole milliseconds: "MM:SS.mmmmm" from ms / 60000, (ms mod 60000) / 1000 and ms mod 1000 (11 characters below 100 minutes) from one minute on, "SS.m" from ms / 1000 and ms mod 1000 below |
| ProfileUtil.BlockTimer.ToString | src/util/profile_util.h:81-83 | the last measured span (end minus start) in the same format as AccumulatedString |
| EdgeLoops.FindSharedEdgeV | src/geometry/EdgeLoop.h:41-53 | returns a vertex the two edges share, preferring the first edge's first end; on valid ids InvalidID exactly when they share none |
| EdgeLoops.FindEdgeOtherV | src/geometry/EdgeLoop.h:55-63 | returns the other end of the edge, or InvalidID when v is not on it |
| EdgeLoops.EdgeOtherVInvolution | src/geometry/EdgeLoop.h:55-63 | taking the other end twice returns the starting vertex |
| EdgeLoops.ReversedTwice | src/geometry/EdgeLoop.h:224-227 | reversing twice restores the sequence |
| EdgeLoops.LoopRoundTrip | src/geometry/EdgeLoop.h:102-119 | building a loop from the edges of a closed chain of at least three distinct vertices recovers exactly those vertices |
| EdgeLoops.FromEdgesVerticesOnEdges | src/geometry/EdgeLoop.h:102-119 | every recovered vertex lies on the edges before and after it, and vertex 0 differs from vertex 1 |
| EdgeLoops.InternalUnderReversal | src/geometry/EdgeLoop.h:224-245 | a loop is internal exactly when its reversal is |
| EdgeLoops.ReversalKeepsAlignment | src/geometry/EdgeLoop.h:224-227 | reversing the vertices and rotating the reversed edges by one keeps each edge between its two vertices |
| EdgeLoops.ReverseMisalignsEdges | src/geometry/EdgeLoop.h:224-227 | on a triangle, reversing both lists as written breaks edge alignment, while the rotated edge order keeps it |
| EdgeLoops.FromVerticesSpec | src/geometry/EdgeLoop.h:147-175 | succeeds exactly when every consecutive (cyclic) vertex pair is joined by an edge, and then returns the (optionally re-oriented) vertices with edges aligned to them |
| EdgeLoops.FromVerticesAsWritten | src/geometry/EdgeLoop.h:124-141 | as written, the copy loop iterates over the (empty) result vector instead of the input, so any non-empty input indexes past its end; only an empty input succeeds |
| EdgeLoops.FromVerticesOrientedAsWritten | src/geometry/EdgeLoop.h:147-175 | as written, the copy loop iterates over the empty result vector: without orientation it returns an empty loop, and with it, reading vertex 0 fails |
| EdgeLoops.FromVerticesLosesInput | src/geometry/EdgeLoop.h:124-175 | on a triangle the corrected construction returns the triangle while both as-written ones lose it |
| EdgeLoops.CountNear | src/geometry/EdgeLoop.h:300-312 | counts the vertices within tolerance: zero exactly when none is |
| EdgeLoops.LastNear | src/geometry/EdgeLoop.h:300-312 | the last index within tolerance, or -1 exactly when none is |
| EdgeLoops.CountNearSingle | src/geometry/EdgeLoop.h:339-347 | when exactly one vertex is near, the count is 1 and the last index is that vertex |
| EdgeLoops.CountWithin | src/geometry/EdgeLoop.h:300-312 | the counting loop returns CountNear and LastNear; last is -1 exactly when the count is 0 |
| EdgeLoops.NearestIndex | src/geometry/EdgeLoop.h:283-296 | the first index of least squared distance below DBL_MAX, or -1 when every distance is at least DBL_MAX |
| EdgeLoops.FindNearest | src/geometry/EdgeLoop.h:283-296 | the scanning loop returns NearestIndex |
| EdgeLoops.FirstGoodStart | src/geometry/EdgeLoop.h:334-349 | the first candidate with exactly one vertex of the other loop within tolerance |
| EdgeLoops.FindStart | src/geometry/EdgeLoop.h:334-349 | the search loop finds FirstGoodStart and the matching index in the other loop |
| EdgeLoops.WalkLockstep | src/geometry/EdgeLoop.h:351-362 | the walk returns true exactly when every vertex pair along the two loops, forward or reversed, is within tolerance |
| EdgeLoops.MatchLoops | src/geometry/EdgeLoop.h:325-363 | returns exactly the SameLoopFrom comparison |
| EdgeLoops.SameLoopReflexive | src/geometry/EdgeLoop.h:325-363 | a loop whose vertices are pairwise at least tol apart matches itself |
| EdgeLoops.SameLoopStartCounterexample | src/geometry/EdgeLoop.h:339-341 | trying vertex ids as start positions misses a match that the vertex positions find |
| EdgeLoops.WriteSpan | src/geometry/EdgeLoop.h:368-380 | writes count consecutive loop vertices (wrapping) into the span, forward or back to front; an index past the span's end is an error |
| EdgeLoops.EdgeLoop.constructor | src/geometry/EdgeLoop.h:81-83 | an empty loop on the mesh |
| EdgeLoops.EdgeLoop.FromParts | src/geometry/EdgeLoop.h:84-88 | a loop holding exactly the given vertices and edges |
| EdgeLoops.EdgeLoop.Copy | src/geometry/EdgeLoop.h:90-97 | a copy with the same mesh, vertices, edges and bowtie vertices |
| EdgeLoops.EdgeLoop.FromEdges | src/geometry/EdgeLoop.h:102-119 | the new loop has the given edges and the vertices LoopVerticesFromEdges recovers; this loop's own edges are overwritten too |
| EdgeLoops.EdgeLoop.FromVertices | src/geometry/EdgeLoop.h:147-175 | succeeds or fails exactly as FromVerticesSpec, with the same vertices, edges and error |
| EdgeLoops.EdgeLoop.Reverse | src/geometry/EdgeLoop.h:224-227 | both lists are reversed in place |
| EdgeLoops.EdgeLoop.ReverseAligned | src/geometry/EdgeLoop.h:224-227 | reverses the vertices and rotates the reversed edges so an aligned loop stays aligned |
| EdgeLoops.EdgeLoop.IsInternalLoop | src/geometry/EdgeLoop.h:233-245 | true exactly when no existing edge between consecutive vertices is a boundary edge |
| EdgeLoops.EdgeLoop.IsBoundaryLoop | src/geometry/EdgeLoop.h:251-265 | true exactly when every edge that exists between consecutive vertices is a boundary edge of the test mesh, or of the loop's mesh when none is given |
| EdgeLoops.EdgeLoop.IsBoundaryLoopAsWritten | src/geometry/EdgeLoop.h:251-265 | as written, a given test mesh is ignored, and without one the null mesh is dereferenced |
| EdgeLoops.EdgeLoop.FindVertexIndex | src/geometry/EdgeLoop.h:270-278 | the first index holding the vertex, or SIZE_MAX when absent |
| EdgeLoops.EdgeLoop.FindNearestVertex | src/geometry/EdgeLoop.h:283-296 | NearestIndex, with -1 converted to SIZE_MAX |
| EdgeLoops.EdgeLoop.CountWithinTolerance | src/geometry/EdgeLoop.h:300-312 | the count of vertices within tolerance and the last such index |
| EdgeLoops.EdgeLoop.WrapSignedIndex | src/geometry/EdgeLoop.h:315-320 | the index wrapped into [0, mod), congruent to val |
| EdgeLoops.EdgeLoop.IsSameLoop | src/geometry/EdgeLoop.h:325-363 | starts are tried at this loop's vertices and the result is SameLoopFrom |
| EdgeLoops.EdgeLoop.IsSameLoopAsWritten | src/geometry/EdgeLoop.h:325-363 | as written, the positions 0..n-1 are used as vertex ids for the start |
| EdgeLoops.EdgeLoop.GetVertexSpanAsWritten | src/geometry/EdgeLoop.h:368-380 | as written, the span is a by-value copy of the caller's buffer, so writing past its length is an error |
| EdgeLoops.EdgeLoop.GetVertexSpan | src/geometry/EdgeLoop.h:368-380 | a bad start or a count of n or more gives an empty span; otherwise the buffer is grown and slot k (reversed when asked) holds vertex starti + k (wrapping), with the rest of the buffer unchanged |
| EdgeLoops.EdgeLoop.VertexLoopToEdgeLoop | src/geometry/EdgeLoop.h:385-395 | the edge after every vertex of the cyclic list |
| EdgeLoops.CheckAllBoundary | src/geometry/EdgeLoop.h:251-265 | the loop returns true exactly when every edge that exists between consecutive vertices is a boundary edge |
| EdgeLoops.BoundaryLoopIgnoresTestMesh | src/geometry/EdgeLoop.h:251-265 | a loop that is boundary on its own mesh but not on the test mesh is reported boundary as written and not boundary when corrected |
| EdgeLoops.VertexSpanIntoEmptyBuffer | src/geometry/EdgeLoop.h:368-380 | a span of two into an empty buffer fails as written and gives [10, 11] when corrected |
| EdgeSpans.SpanVerticesFromEdges | src/geometry/EdgeSpan.h:67-89 | an open span of n edges has n + 1 vertices |
| EdgeSpans.InteriorVerticesComplete | src/geometry/EdgeSpan.h:76-83 | shared interior vertices plus the two far ends give exactly the span's vertex list |
| EdgeSpans.SpanRoundTrip | src/geometry/EdgeSpan.h:67-89 | building a span from the edges of a path of at least three distinct connected vertices recovers exactly those vertices |
| EdgeSpans.SpanRoundTripSingleEdge | src/geometry/EdgeSpan.h:84-87 | a one-edge span recovers its two vertices, possibly swapped |
| EdgeSpans.FirstPathGap | src/geometry/EdgeSpan.h:99-105 | the first consecutive pair not joined by an edge, or the last index when all are |
| EdgeSpans.SpanFromVerticesSpec | src/geometry/EdgeSpan.h:94-107 | succeeds exactly when the list is non-empty and every consecutive pair is joined, and then keeps the vertices with aligned edges |
| EdgeSpans.FirstNonBoundary | src/geometry/EdgeSpan.h:149-160 | the first consecutive pair that is not a boundary edge, or the last index |
| EdgeSpans.EdgeSpan.constructor | src/geometry/EdgeSpan.h:54-56 | an empty span on the mesh |
| EdgeSpans.EdgeSpan.FromParts | src/geometry/EdgeSpan.h:58-62 | a span holding exactly the given vertices and edges |
| EdgeSpans.EdgeSpan.FromEdges | src/geometry/EdgeSpan.h:67-89 | a span of the given edges with the vertices SpanVerticesFromEdges recovers |
| EdgeSpans.EdgeSpan.FromVertices | src/geometry/EdgeSpan.h:94-107 | succeeds or fails exactly as SpanFromVerticesSpec |
| EdgeSpans.EdgeSpan.IsInternalSpan | src/geometry/EdgeSpan.h:135-147 | true exactly when no existing edge of the open path is a boundary edge |
| EdgeSpans.EdgeSpan.IsBoundarySpan | src/geometry/EdgeSpan.h:149-160 | true exactly when every edge of the path is a boundary edge of the chosen mesh; a missing edge is an error |
| EdgeSpans.EdgeSpan.FindNearestVertex | src/geometry/EdgeSpan.h:162-175 | the first index of least squared distance, or -1 |
| EdgeSpans.EdgeSpan.CountWithinTolerance | src/geometry/EdgeSpan.h:177-191 | the count of vertices within tolerance and the last such index |
| EdgeSpans.EdgeSpan.IsSameSpan | src/geometry/EdgeSpan.h:195-199 | always fails with "not implemented" |
| EdgeSpans.EdgeSpan.VerticesToEdges | src/geometry/EdgeSpan.h:245-255 | the edge between every consecutive pair; an empty list is an error (negative size) |

## Left out

- DMesh3 is not part of this model. It is reduced to an edge table (`MeshModel`). Vertex positions, `GetVertex`, `GetBounds`, `ToCurve`, the curve extraction and the bowtie-vertex computation are omitted.
- Floating point: distances, squared distances and tolerances are opaque real-valued function parameters. The vector arithmetic that produces them is omitted.
- `EdgeLoop.VertexCount`, `EdgeLoop.EdgeCount`, `EdgeLoop.GetVertex` and their `EdgeSpan` counterparts only return a field or an element, so they have no members.
- EdgeLoops.EdgeLoop.FromEdges: requires at least two valid edge ids; the source reads `Edges[0]` and `CurrentVertices[1]`, which is undefined behaviour for fewer edges.
- EdgeSpans.EdgeSpan.FromEdges: requires at least one valid edge id, for the same reason.
- EdgeLoops.EdgeLoop.FromVertices: with orientation on (the default), requires at least two vertices; the source reads `CurrentVertices[1]`, which is undefined behaviour for fewer. The same restriction is on EdgeLoops.FromVerticesSpec and EdgeLoops.OrientedVertices. OrientedVertices also tests `eid != InvalidID` before asking whether the first edge is a boundary edge, where the source calls `IsBoundaryEdge` on an id that may be invalid.
- `BlockTimer.Running`, `MappedIterator.Deref`, `ExpandIterator.Deref`, `IDMap.Type` and the `Equals` predicates of `MappedIterator`, `FilteredIterator` and `ExpandIterator` (each `operator==` compares base positions only) only return a field, the mapped element or a comparison of fields, so they have no rows; Start, Stop, Accumulate and Reset state the running flag, and MappedVisitedIsMap states what dereferencing and advancing produce.
- EdgeSpan.h is a half-translated C# file. Its `FromEdges` and `FromVertices` both pass a fourth `false` argument to the constructor, and its missing semicolons are read as intended. An exception thrown there is modelled as an error value.
- ParseUtil: `ToInt`, `ToFloat` and `ToDouble` wrap the C library number parsers and are omitted.
- IteratorUtil: copying of the function objects and the `operator!=` on iterators of different adaptors are omitted; iterator equality compares base positions only.
- IDMaps: in shift mode `vOld + shift` and `vNew - shift` can overflow a C++ `int`, which is undefined behaviour; GetNew, GetOld and Apply compute on unbounded integers and do not model it.
- ProfileUtil: the `(int)` casts in `ToTimeString` assume the span fits in 32 bits. Overflow beyond that is omitted, and the 256-byte buffer is assumed large enough.
- MeshGenerators: vertex normals, UVs, frames and the radius scaling are omitted; only ids and topology are kept.
- The sphere's degenerate and offset cases are reproduced, not excluded. With `nStacks == 1` the caps name ring vertices that do not exist, and the bottom cap's ids are negative. On a non-empty mesh the cap and body ids are not offset by the mesh's existing vertices, while the bottom pole is. The range property (IndicesInRange) is therefore stated for an empty mesh with `nSlices >= 1` and `nStacks >= 2`. These cases are reproduced only as index triples: the sink appends any triple, and what the mesh does with a triangle naming a missing or negative vertex is not part of this model.
- ObjectPools: the move constructor and move assignment, and the pointer stability of the block-allocated `dvector` store, are omitted; objects are values held in slots.
- ProgressCancels: `CancelFunction` stores a reference to the caller's `std::function`, which can dangle; the model keeps the callback by value.
- Clocks (`high_resolution_clock::now`) and cancel callbacks are oracle objects whose n-th answer is fixed in advance.
- MeshConstraints: the projection target's geometry (`Project`) is not part of this model; a target is an opaque object reference.
- profile_util.h also defines a `LocalProfiler` that is commented out; it has no members.

## Findings

| source | as written | input that shows it | evidently intended | confidence | as-written member | corrected member |
|---|---|---|---|---|---|---|
| src/geometry/EdgeLoop.h:124-141 | the copy loop ranges over the empty `CurrentVertices` instead of `vertices` | vertices [0, 1, 2] of a triangle: the edge lookup indexes the empty vector | copy the input vertices, then look up the edges | not executed | EdgeLoops.FromVerticesAsWritten | EdgeLoops.FromVerticesSpec |
| src/geometry/EdgeLoop.h:147-175 | the copy loop ranges over the empty `CurrentVertices` instead of `vertices` | vertices [0, 1, 2], no auto-orient: returns an empty loop (FromVerticesLosesInput) | copy the input vertices | not executed | EdgeLoops.FromVerticesOrientedAsWritten | EdgeLoops.EdgeLoop.FromVertices |
| src/geometry/EdgeLoop.h:251-265 | the ternary `!testMesh ? testMesh : Mesh` picks the null test mesh when none is given and ignores a given one | a test mesh on which the loop is not boundary: reported boundary (BoundaryLoopIgnoresTestMesh) | use the test mesh when given, else the loop's mesh | not executed | EdgeLoops.EdgeLoop.IsBoundaryLoopAsWritten | EdgeLoops.EdgeLoop.IsBoundaryLoop |
| src/geometry/EdgeLoop.h:339-341 | the start candidate is the loop position i, used as a vertex id | loop [1] against itself, vertices 0 and 1 far apart: not matched (SameLoopStartCounterexample) | use Vertices[i] | not executed | EdgeLoops.EdgeLoop.IsSameLoopAsWritten | EdgeLoops.EdgeLoop.IsSameLoop |
| src/geometry/EdgeLoop.h:368-380 | `count` entries are written into the caller's buffer, which is never resized to hold them | count 2 into an empty buffer: writes past its end (VertexSpanIntoEmptyBuffer) | grow the buffer to hold count entries | not executed | EdgeLoops.EdgeLoop.GetVertexSpanAsWritten | EdgeLoops.EdgeLoop.GetVertexSpan |
| src/geometry/EdgeLoop.h:224-227 | Reverse reverses vertices and edges alike | triangle 0-1-2: edge i no longer joins vertex i and i+1 (ReverseMisalignsEdges) | rotate the reversed edges by one | not executed | EdgeLoops.EdgeLoop.Reverse | EdgeLoops.EdgeLoop.ReverseAligned |
| src/util/IDMap.h:91-105 | in Dense mode OldSize/NewSize return the sizes of the sparse maps | a dense 3→4 map reports 0 and 0 | return the sizes of the dense tables | not executed | IDMaps.IDMap.OldSizeAsWritten | IDMaps.IDMap.OldSize |
| src/util/parse_util.h:64-85 | the scan starts at the second character, and an empty string dereferences `begin()` | ",a" gives [",a"] (LeadingDelimiterNotSplit); "" reads past the end | start at the first character and handle the empty string | not executed | ParseUtil.SplitAsWritten | ParseUtil.Split |
| src/util/iterator_util.h:110-116 | the constructor tests `filter(*cur)` before comparing with end | an empty range dereferences end (FilteredEmptyRangeDereferencesEnd) | check for end first | not executed | IteratorUtil.FilteredStartAsWritten | IteratorUtil.FilteredIterator.constructor |
