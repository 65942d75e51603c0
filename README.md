# SIRF Gadgetron containers, modelled in Dafny

This project models the core of SIRF's wrapper around Gadgetron's MR data types. It keeps the source's own entities and their behaviour:

- **Acquisition container.** `AcquisitionsVector` holds ISMRMRD acquisitions, an optional logical permutation `index_`, a `sorted_` flag and the k-space subset table `sorting_`. The model covers:
  - resolving a logical number with `index(i)`;
  - the acquisition filter `TO_BE_IGNORED`, with the status `get_acquisition` returns;
  - `organise_kspace`, `sort_by_time`/`sort`, `get_kspace_order`, `get_flagged_acquisitions_index`, `get_subset`/`set_subset`, `clone` and `get_trajectory_dimensions`.
- **Container algebra.** The element-wise algebra runs per acquisition and per container: `axpby`, both `xapyb` forms, `binary_op`, `semibinary_op` and `unary_op`. The reductions `dot`, `sum`, `max` and `norm` are modelled too. The container loops walk several cursors, skip ignored acquisitions, and append to an empty output or overwrite a non-empty one.
- **Image containers.** `GadgetronImagesVector` is modelled with the size-checked algebra of `GadgetronImageData` (`xapyb_` and friends), its reductions, its flattening `Iterator`, `check_dimension_consistency` and the file-name dispatch of `write(filename)`.
- **Coil sensitivities.**
  - `CoilImagesVector::calculate` with `extract_calibration_data`.
  - `CoilSensitivitiesVector`: `calculate`, `calculate_csm` with `smoothen_`, `mask_noise_`, `max_` and `max_diff_`, the cyclic map search `get_csm_as_cfimage(tag, offset)`, and `forward`/`backward` (`coilchannels_from_combined_image`, `combine_images_with_coilmaps`).
- **Small procedures.**
  - `KSpaceSubset`: its constructors, `add_idx_to_set`, `is_first_set` and the two tag getters.
  - `ismrmrd_par_info`.
  - The case-insensitive encoding-limit accessors.
  - The property-string parser of `cGT_setGadgetProperties`.

Complex samples are pairs of exact reals with ring operations (module `Complexes`). A C++ exception is an `Err` of the `Errors.Error` datatype. The source's quirks are reproduced, not repaired:

- **Zero-filled permutation in `sort_by_time`.** `sort_by_time` zero-fills `index_` before reading the time stamps. A container without a permutation is therefore left in identity order.
- **No minimum subtraction in `organise_kspace`.** `organise_kspace` does not subtract the encoding minima.
- **Four-operand `xapyb` loop test.** The loop tests only the ends of `y` and `b`.
- **Map search ignores the image's contrast.** The search accepts a map whose contrast is 0 and never compares it with the image's contrast.
- **`check_dimension_consistency` checks nothing.** It compares image 0 with itself.

Module by file:

| file | module | what it holds |
|---|---|---|
| errors.dfy | Errors | `Result`, `Outcome` and the exceptions |
| complex.dfy | Complexes | complex ring operations on exact reals |
| ismrmrd.dfy | Ismrmrd | acquisitions, headers, flag words, `TO_BE_IGNORED` |
| names.dfy | Names | `sirf::iequals` |
| par_info.dfy | AcquisitionParameters | `ismrmrd_par_info` |
| encoding_limits.dfy | EncodingLimitNames | `set_encoding_limits` / `get_encoding_limits` |
| kspace.dfy | KSpace | `KSpaceSubset` |
| kspace_order.dfy | KSpaceOrder | the row-major subset table of `organise_kspace` |
| organise.dfy | KSpaceSorting | `organise_kspace` on a container value |
| stable_order.dfy | StableOrder | `std::iota` + `std::stable_sort` |
| stores.dfy | Stores | `index(i)` and reads/writes through it |
| container_queries.dfy | AcquisitionQueries | sort keys, flagged index, subsets, clone, trajectory dimensions |
| container_walk.dfy | ContainerWalk | the cursor walk shared by the container algebra |
| container_algebra.dfy | ContainerAlgebra | the walk's loop body, the per-operation rows, the reductions |
| acquisition_ops.dfy | AcquisitionOps | per-acquisition algebra and reductions |
| acquisitions.dfy | Acquisitions | the `AcquisitionsVector` class |
| images.dfy | Images | image algebra, reductions, `Iterator`, the images vector class |
| image_write.dfy | ImageWrite | `write(filename)` |
| coil_images.dfy | CoilImages | `CoilImagesVector` |
| grid.dfy | Grid | the flat 4-D layout x + nx·(y + ny·(z + nz·c)) |
| coil_maps.dfy | CoilMaps | `calculate_csm` and its helpers |
| coil_sensitivities.dfy | CoilSensitivities | `CoilSensitivitiesVector` |

## Model

| member | source | states |
|---|---|---|
| Complexes.MulConjSelf | src/xGadgetron/cGadgetron/gadgetron_data_containers.cpp:536-546 | conj(a)·a is the real number \|a\|², which is what norm(acq) adds up |
| Complexes.MulConjSwap | src/xGadgetron/cGadgetron/gadgetron_data_containers.cpp:521-533 | conj(b)·a is the conjugate of conj(a)·b, the per-sample form of dot's conjugate symmetry |
| Names.Lowered | src/xGadgetron/cGadgetron/include/sirf/Gadgetron/gadgetron_data_containers.h:312-336 | the C-locale lower-casing sirf::iequals compares with keeps the length, lower-cases every character and leaves no upper-case letter |
| Names.IEqualsIff | src/xGadgetron/cGadgetron/include/sirf/Gadgetron/gadgetron_data_containers.h:312-336 | two names match case-insensitively exactly when their lower-cased forms are equal |
| Names.LoweredOfLowerCase | src/xGadgetron/cGadgetron/include/sirf/Gadgetron/gadgetron_data_containers.h:312-336 | a lower-case name is its own lower-cased form |
| Names.MatchesOneName | src/xGadgetron/cGadgetron/include/sirf/Gadgetron/gadgetron_data_containers.h:312-336 | a parameter name matches at most one of the lower-case names it is compared with |
| AcquisitionParameters.ParInfo | src/xGadgetron/cGadgetron/include/sirf/Gadgetron/gadgetron_data_containers.h:305-337 | the answer is always type 0 or 1 and a dimension of at least 1 |
| AcquisitionParameters.ParInfoOfTableEntry | src/xGadgetron/cGadgetron/include/sirf/Gadgetron/gadgetron_data_containers.h:305-337 | a parameter naming one of the eleven listed names, in any letter case, gets that name's type and dimension: type 1 for the float parameters, dimension 3 for position and the direction vectors, the ISMRMRD counts for physiology_time_stamp, channel_mask, user_int/idx_user and user_float |
| AcquisitionParameters.ParInfoDefault | src/xGadgetron/cGadgetron/include/sirf/Gadgetron/gadgetron_data_containers.h:307-309 | any other parameter gets the default: integer, dimension 1 |
| AcquisitionParameters.MatchesOnlyOne | src/xGadgetron/cGadgetron/include/sirf/Gadgetron/gadgetron_data_containers.h:312-336 | a parameter matching one listed name matches no other, so the first match of each chain is the only one |
| AcquisitionParameters.NamesFromTable | src/xGadgetron/cGadgetron/include/sirf/Gadgetron/gadgetron_data_containers.h:312-336 | the type chain tests exactly the first seven names, and the dimension chain tests position and the directions among the rest |
| EncodingLimitNames.LimitNameOfIff | src/xGadgetron/cGadgetron/include/sirf/Gadgetron/gadgetron_data_containers.h:448-473 | a name selects limit n exactly when it equals n's name ignoring letter case |
| EncodingLimitNames.SpellingsDistinct | src/xGadgetron/cGadgetron/include/sirf/Gadgetron/gadgetron_data_containers.h:448-473 | the nine accepted names are lower-case and distinct |
| EncodingLimitNames.SetDefinedIff | src/xGadgetron/cGadgetron/include/sirf/Gadgetron/gadgetron_data_containers.h:437-505 | setting succeeds exactly when getting the same name does, and both fail with the same exception: no encoding, a name that is not one of the nine, or an absent limit |
| EncodingLimitNames.SetThenGet | src/xGadgetron/cGadgetron/include/sirf/Gadgetron/gadgetron_data_containers.h:437-505 | a limit just set reads back as the (min, max, center) triple given |
| EncodingLimitNames.SetKeepsOtherNames | src/xGadgetron/cGadgetron/include/sirf/Gadgetron/gadgetron_data_containers.h:437-505 | setting one limit leaves every limit under another name unchanged |
| EncodingLimitNames.SetKeepsOtherEncodings | src/xGadgetron/cGadgetron/include/sirf/Gadgetron/gadgetron_data_containers.h:441-470 | only the first encoding of the header is changed |
| EncodingLimitNames.SetWhatIsThere | src/xGadgetron/cGadgetron/include/sirf/Gadgetron/gadgetron_data_containers.h:437-505 | setting a limit to the value it already has leaves the header unchanged |
| KSpace.DefaultSubset | src/xGadgetron/cGadgetron/include/sirf/Gadgetron/gadgetron_data_containers.h:152-155 | the default subset has every tag entry -1 and an empty index list |
| KSpace.AddIdxToSet | src/xGadgetron/cGadgetron/include/sirf/Gadgetron/gadgetron_data_containers.h:169 | add_idx_to_set keeps the tag, keeps the old list as a prefix and puts the new index at the end |
| KSpace.IsFirstSet | src/xGadgetron/cGadgetron/include/sirf/Gadgetron/gadgetron_data_containers.h:171-179 | is_first_set returns true exactly when the average entry and every entry from contrast on are 0 |
| KSpace.FirstSetIgnoresSlice | src/xGadgetron/cGadgetron/include/sirf/Gadgetron/gadgetron_data_containers.h:171-179 | tags differing only in the slice entry are equally first or not |
| KSpace.TagFromAcquisition | src/xGadgetron/cGadgetron/gadgetron_data_containers.cpp:1386-1401 | the tag holds average, slice, contrast, phase, repetition and set in that order; the segment and user entries are 0 |
| KSpace.TagFromImage | src/xGadgetron/cGadgetron/gadgetron_data_containers.cpp:1367-1383 | the tag holds the image header's average, slice, contrast, phase, repetition and set; the rest is 0 |
| Stores.IndexInStorage | src/xGadgetron/cGadgetron/include/sirf/Gadgetron/gadgetron_data_containers.h:659-668 | on a well-formed container a resolved logical number is a storage position, and reading it returns that stored item |
| Stores.At | src/xGadgetron/cGadgetron/include/sirf/Gadgetron/gadgetron_data_containers.h:1296-1308 | an image read through `images_.at(index(i))` succeeds exactly where the unchecked read succeeds and returns the same image; otherwise it throws out of range, also for a resolved position outside the storage, where the unchecked read is undefined |
| Stores.ReadableWhenFullyIndexed | src/xGadgetron/cGadgetron/include/sirf/Gadgetron/gadgetron_data_containers.h:659-668 | a container without a permutation, or with one covering the storage, can be read at every number below number() |
| Stores.IndexInjective | src/xGadgetron/cGadgetron/include/sirf/Gadgetron/gadgetron_data_containers.h:659-668 | index(i) is one-to-one: two numbers never resolve to the same stored acquisition |
| Stores.IndexDefinedIff | src/xGadgetron/cGadgetron/include/sirf/Gadgetron/gadgetron_data_containers.h:659-668 | index(i) throws exactly when i < 0, i >= number(), or a non-empty permutation is shorter than i + 1 |
| Stores.IndexIdentityWithoutPermutation | src/xGadgetron/cGadgetron/include/sirf/Gadgetron/gadgetron_data_containers.h:659-668 | with an empty permutation, index(i) == i for every valid i |
| Stores.WriteThenRead | src/xGadgetron/cGadgetron/include/sirf/Gadgetron/gadgetron_data_containers.h:743-747 | writing through index(i) changes what number i reads to the item written and leaves every other number's reading as it was |
| ImageWrite.FindLastOf | src/xGadgetron/cGadgetron/include/sirf/Gadgetron/gadgetron_data_containers.h:820-825 | find_last_of returns npos exactly when no character of the set occurs; otherwise the position of the last one |
| ImageWrite.Wrap | src/xGadgetron/cGadgetron/include/sirf/Gadgetron/gadgetron_data_containers.h:814 | the size_t arithmetic of the source reduced modulo 2^64: the result lies in range and differs from the exact value by at most one wrap |
| ImageWrite.ExtensionUnique | src/xGadgetron/cGadgetron/include/sirf/Gadgetron/gadgetron_data_containers.h:820-829 | a file name has at most one extension: the suffix from the last '.' after the last separator |
| ImageWrite.WriteFailsIff | src/xGadgetron/cGadgetron/include/sirf/Gadgetron/gadgetron_data_containers.h:813-814 | write(filename) throws (substr out of range) exactly for names shorter than four characters |
| ImageWrite.WriteDicom | src/xGadgetron/cGadgetron/include/sirf/Gadgetron/gadgetron_data_containers.h:815-818 | a name ending in ".dcm" writes DICOM to the name without the suffix |
| ImageWrite.WriteOtherNames | src/xGadgetron/cGadgetron/include/sirf/Gadgetron/gadgetron_data_containers.h:819-837 | any other name: no extension writes HDF5 to name + ".h5"; the extension ".h5" writes HDF5 to the name as given; any other extension only warns |
| ImageWrite.WriteFindsExtension | src/xGadgetron/cGadgetron/include/sirf/Gadgetron/gadgetron_data_containers.h:820-829 | the source's two-stage search (last separator, then last '.' after it) finds exactly the extension, or finds that there is none |
| ImageWrite.ExtensionWithoutSeparator | src/xGadgetron/cGadgetron/include/sirf/Gadgetron/gadgetron_data_containers.h:822-823 | without a separator the last '.' of the whole name starts the extension |
| ImageWrite.ExtensionAfterSeparator | src/xGadgetron/cGadgetron/include/sirf/Gadgetron/gadgetron_data_containers.h:824-829 | after a separator, the search in the rest of the name locates the same extension in the full name |
| ImageWrite.ExtensionFound | src/xGadgetron/cGadgetron/include/sirf/Gadgetron/gadgetron_data_containers.h:820-837 | the dispatch of a name without ".dcm" follows its extension: HDF5 to name + ".h5" when there is none, HDF5 to the name for ".h5", a warning otherwise |
| GadgetProperties.FindFirstOf | src/xGadgetron/cGadgetron/cgadgetron.cpp:1510-1521 | std::string::find_first_of returns npos or a position at or after the start inside the string |
| GadgetProperties.FindFirstOfSpec | src/xGadgetron/cGadgetron/cgadgetron.cpp:1514-1521 | find_first_of returns the first position at or after i holding a character of the set, and npos exactly when there is none |
| GadgetProperties.FindFirstNotOf | src/xGadgetron/cGadgetron/cgadgetron.cpp:1510-1520 | std::string::find_first_not_of returns npos or a position at or after the start inside the string |
| GadgetProperties.FindFirstNotOfSpec | src/xGadgetron/cGadgetron/cgadgetron.cpp:1510-1520 | find_first_not_of returns the first position at or after i outside the set, and npos exactly when there is none |
| GadgetProperties.PassAt | src/xGadgetron/cGadgetron/cgadgetron.cpp:1510-1529 | a pass that reads a pair moves strictly forward and stays within the string, so the loop terminates |
| GadgetProperties.SetGadgetProperties | src/xGadgetron/cGadgetron/cgadgetron.cpp:1503-1532 | the parsing loop makes exactly the set_property calls, in order, and raises exactly the exception that ParseFrom, its recursive description, gives |
| GadgetProperties.ReadPass | src/xGadgetron/cGadgetron/cgadgetron.cpp:1510-1529 | one loop pass reads the pair and the next position that PassAt describes |
| GadgetProperties.BlankMakesNoCalls | src/xGadgetron/cGadgetron/cgadgetron.cpp:1509-1512 | a string makes no call and no exception exactly when it is empty or all whitespace |
| GadgetProperties.PassIsClean | src/xGadgetron/cGadgetron/cgadgetron.cpp:1513-1525 | one pass reads a name without '=' or whitespace and a value without ',' or whitespace that does not start with '=' |
| GadgetProperties.CallsAreClean | src/xGadgetron/cGadgetron/cgadgetron.cpp:1509-1530 | every call the parser makes has such a clean name and value |
| GadgetProperties.ParseJoin | src/xGadgetron/cGadgetron/cgadgetron.cpp:1509-1530 | pairs written as name=value,name=value,… with clean names and non-empty clean values are read back as exactly those pairs, in order, without exception |
| GadgetProperties.ParseStep | src/xGadgetron/cGadgetron/cgadgetron.cpp:1526-1529 | a pass that reads a pair makes its set_property call before the calls of the rest of the string |
| GadgetProperties.ParseAtEnd | src/xGadgetron/cGadgetron/cgadgetron.cpp:1510-1512 | at the end of the string the loop stops with no call and no exception |
| GadgetProperties.NameWithoutValueThrows | src/xGadgetron/cGadgetron/cgadgetron.cpp:1520-1524 | a name with only '=' and whitespace after it makes substr start at npos: the parse throws out_of_range before calling set_property |
| GadgetProperties.CallsBeforeThrowStay | src/xGadgetron/cGadgetron/cgadgetron.cpp:1520-1532 | pairs written before such a dangling name are all set, in order, and then the parse throws |
| GadgetProperties.ParseJoinThen | src/xGadgetron/cGadgetron/cgadgetron.cpp:1509-1530 | written pairs followed by the end of the string or a ',' are read back in order and the parse continues after them |
| GadgetProperties.PassOverEntry | src/xGadgetron/cGadgetron/cgadgetron.cpp:1513-1529 | the pass over one written pair reads it back and steps over at most one following ',' |
| StableOrder.InsertPos | src/xGadgetron/cGadgetron/gadgetron_data_containers.cpp:1127-1128 | position i goes after every entry whose key is not above its own and before the first entry with a larger key, the comparison a[i] < a[j] of the stable sort |
| StableOrder.StableOrder | src/xGadgetron/cGadgetron/gadgetron_data_containers.cpp:1126-1128 | the sorted iota holds n entries, each below n |
| StableOrder.StableOrderSpec | src/xGadgetron/cGadgetron/gadgetron_data_containers.cpp:1126-1128 | the stable sort of iota lists 0 .. n-1 once each, ascending by key and, among equal keys, by position |
| StableOrder.InsertPermutes | src/xGadgetron/cGadgetron/gadgetron_data_containers.cpp:1126-1128 | inserting position i into an ordering of 0 .. i-1 gives an ordering of 0 .. i |
| StableOrder.StableOrderOfEqualKeys | src/xGadgetron/cGadgetron/gadgetron_data_containers.cpp:1126-1128 | with all keys equal the stable sort is the identity |
| StableOrder.IncreasingPermutation | src/xGadgetron/cGadgetron/gadgetron_data_containers.cpp:1126-1128 | a strictly increasing ordering of 0 .. n-1 is the identity |
| StableOrder.Iota | src/xGadgetron/cGadgetron/gadgetron_data_containers.cpp:1126 | std::iota: entry k is k |
| KSpaceOrder.NumEncStates | src/xGadgetron/cGadgetron/gadgetron_data_containers.cpp:1153-1164 | the number of states of a present limit is maximum - minimum + 1, and 1 for an absent limit |
| KSpaceOrder.StateCounts | src/xGadgetron/cGadgetron/gadgetron_data_containers.cpp:1180-1186 | the seven loop bounds in tag order, the segment bound being 1 |
| KSpaceOrder.SubsetCount | src/xGadgetron/cGadgetron/gadgetron_data_containers.cpp:1188-1202 | the nested loops create the product of the bounds when all are positive, and no subset otherwise |
| KSpaceOrder.RowMajorBounded | src/xGadgetron/cGadgetron/gadgetron_data_containers.cpp:1210 | a tag within the loop bounds has its row-major access index below the number of subsets |
| KSpaceOrder.RowMajorOfDigits | src/xGadgetron/cGadgetron/gadgetron_data_containers.cpp:1188-1210 | the subset created at step p of the nested loops has access index p |
| KSpaceOrder.DigitsOfRowMajor | src/xGadgetron/cGadgetron/gadgetron_data_containers.cpp:1188-1210 | a tag within the bounds is recovered from its access index: distinct tags get distinct subsets |
| KSpaceOrder.CandidateTag | src/xGadgetron/cGadgetron/gadgetron_data_containers.cpp:1196-1200 | the tag of the p-th created subset: the counters of step p, then zeros |
| KSpaceOrder.CandidateTagOfPosition | src/xGadgetron/cGadgetron/gadgetron_data_containers.cpp:1196-1211 | an acquisition whose counters lie within the bounds lands in the subset whose tag is its own tag |
| KSpaceOrder.BucketMembers | src/xGadgetron/cGadgetron/gadgetron_data_containers.cpp:1205-1212 | a subset's list holds exactly the acquisition numbers placed there, in ascending order |
| KSpaceOrder.Filled | src/xGadgetron/cGadgetron/gadgetron_data_containers.cpp:1188-1212 | after the placing loop there is one subset per step of the nested loops, in loop order, with the tag of that step and the ascending numbers of the acquisitions placed there |
| KSpaceOrder.DropEmptyKeeps | src/xGadgetron/cGadgetron/gadgetron_data_containers.cpp:1213-1215 | the erase-remove_if keeps, in their order, exactly the non-empty subsets |
| KSpaceOrder.KeptPositionsAt | src/xGadgetron/cGadgetron/gadgetron_data_containers.cpp:1213-1215 | the kept subsets are the subsets at the kept positions, and only non-empty ones |
| KSpaceOrder.OrganisedAt | src/xGadgetron/cGadgetron/gadgetron_data_containers.cpp:1188-1215 | the k-th subset of the final table is the filled subset at the k-th kept position |
| KSpaceOrder.OrganisedCovers | src/xGadgetron/cGadgetron/gadgetron_data_containers.cpp:1205-1215 | an acquisition with a valid access index lies in some subset of the final table |
| KSpaceOrder.OrganisedUnique | src/xGadgetron/cGadgetron/gadgetron_data_containers.cpp:1205-1215 | no acquisition number lies in two subsets of the final table |
| KSpaceOrder.OrganisedShape | src/xGadgetron/cGadgetron/gadgetron_data_containers.cpp:1188-1215 | every subset of the final table is non-empty, ascending, and carries the tag of its members' access index |
| KSpaceOrder.OrganisedPartition | src/xGadgetron/cGadgetron/gadgetron_data_containers.cpp:1166-1216 | when every access index is valid, the final table partitions the acquisition numbers into non-empty ascending subsets named by their members' tag |
| KSpaceSorting.PositionOf | src/xGadgetron/cGadgetron/gadgetron_data_containers.cpp:1205-1211 | a number with an access index reads, and its index is a valid subset number |
| KSpaceSorting.PositionOfInRange | src/xGadgetron/cGadgetron/gadgetron_data_containers.cpp:1205-1211 | an acquisition whose counters lie within the bounds has an access index, and the subset there carries its own tag |
| KSpaceSorting.Positions | src/xGadgetron/cGadgetron/gadgetron_data_containers.cpp:1204-1212 | the placing loop records each acquisition's access index in order and stops at the first read or .at failure, with that failure |
| KSpaceSorting.PositionsStopped | src/xGadgetron/cGadgetron/gadgetron_data_containers.cpp:1204-1212 | once the loop has thrown, further acquisitions change nothing |
| KSpaceSorting.OrganiseSucceedsIff | src/xGadgetron/cGadgetron/gadgetron_data_containers.cpp:1166-1216 | organise_kspace succeeds exactly for a header with one encoding under which every acquisition has a subset; more than one encoding throws at once with an emptied table |
| KSpaceSorting.OrganisePartitions | src/xGadgetron/cGadgetron/gadgetron_data_containers.cpp:1166-1216 | after a successful organise_kspace every acquisition number lies in exactly one subset, and every subset is non-empty with an ascending list |
| KSpaceSorting.OrganisedSubsetTag | src/xGadgetron/cGadgetron/gadgetron_data_containers.cpp:1196-1211 | a listed number's subset carries the tag of that number's access index |
| KSpaceSorting.OrganiseKeepsOwnTag | src/xGadgetron/cGadgetron/gadgetron_data_containers.cpp:1196-1211 | the subset holding an in-bounds acquisition carries exactly that acquisition's tag |
| KSpaceSorting.FilledStep | src/xGadgetron/cGadgetron/gadgetron_data_containers.cpp:1211 | placing one acquisition appends its number to its own subset only |
| KSpaceSorting.FilledEmpty | src/xGadgetron/cGadgetron/gadgetron_data_containers.cpp:1188-1202 | before placing, every subset of the bounds exists with its candidate tag and an empty list |
| KSpaceSorting.MinimaNotSubtracted | src/xGadgetron/cGadgetron/gadgetron_data_containers.cpp:1153-1164 | the encoding minima are not subtracted: with average limits 1 .. 1 there is one subset, and an acquisition with average 1 gets access index 1, which .at refuses |
| KSpaceOrder.KeptPositionsIncrease | src/xGadgetron/cGadgetron/gadgetron_data_containers.cpp:1213-1215 | the positions of the subsets left after erasing the empty ones are strictly increasing positions of the table, so the order of the table is kept |
| KSpaceOrder.KeptPositionsCover | src/xGadgetron/cGadgetron/gadgetron_data_containers.cpp:1213-1215 | every non-empty subset of the table survives the erasing |
| GadgetProperties.NameWithoutValueThrowsAt | src/xGadgetron/cGadgetron/cgadgetron.cpp:1513-1524 | from any position where only whitespace, a clean name and then '=' or whitespace up to the end remain, the pass throws out_of_range without a call |
| GadgetProperties.PassOverPair | src/xGadgetron/cGadgetron/cgadgetron.cpp:1513-1529 | a pass over name=value followed by the end or a ',' reads exactly that pair and continues after the ',' |
| AcquisitionQueries.Resized | src/xGadgetron/cGadgetron/gadgetron_data_containers.cpp:1113 | index_.resize(N) keeps the first N entries and pads with zeros |
| AcquisitionQueries.TimeKeys | src/xGadgetron/cGadgetron/gadgetron_data_containers.cpp:1118-1125 | one time stamp per stored acquisition |
| AcquisitionQueries.TimeKeysRead | src/xGadgetron/cGadgetron/gadgetron_data_containers.cpp:1118-1125 | key k is the time stamp get_acquisition(k) returns once index_ has been resized, and that read never throws |
| AcquisitionQueries.SortByTimePermutes | src/xGadgetron/cGadgetron/gadgetron_data_containers.cpp:1109-1134 | sort_by_time leaves index_ a permutation of 0 .. N-1 covering the storage, ordered by ascending key and, among equal keys, by ascending number |
| AcquisitionQueries.SortByTimeWithoutPermutation | src/xGadgetron/cGadgetron/gadgetron_data_containers.cpp:1112-1128 | with no prior permutation the zero-filled index_ makes every read see acquisition 0, so the stored order is the identity whatever the time stamps |
| AcquisitionQueries.SortByTimeFromIdentity | src/xGadgetron/cGadgetron/gadgetron_data_containers.cpp:1109-1134 | from the identity permutation, reading positions k < l yields ascending time stamps, equal stamps keeping their storage order |
| AcquisitionQueries.FlaggedStopped | src/xGadgetron/cGadgetron/gadgetron_data_containers.cpp:1228-1238 | a failed read ends the flagged list for good |
| AcquisitionQueries.FlaggedDefinedIff | src/xGadgetron/cGadgetron/gadgetron_data_containers.cpp:1219-1241 | get_flagged_acquisitions_index succeeds exactly when no flags are given or every number reads |
| AcquisitionQueries.FlaggedMembers | src/xGadgetron/cGadgetron/gadgetron_data_containers.cpp:1219-1241 | the list holds exactly the numbers whose acquisition has one of the flags set, in ascending order |
| AcquisitionQueries.Gather | src/xGadgetron/cGadgetron/gadgetron_data_containers.cpp:1267-1272 | get_subset's copy loop: item k is what this container reads at idx[k]; it stops at the first read that throws, with that exception |
| AcquisitionQueries.GatherStopped | src/xGadgetron/cGadgetron/gadgetron_data_containers.cpp:1268-1272 | a failed read ends the copy for good |
| AcquisitionQueries.Scatter | src/xGadgetron/cGadgetron/gadgetron_data_containers.cpp:1280-1285 | set_subset's copy loop never changes the number of stored acquisitions |
| AcquisitionQueries.ScatterStopped | src/xGadgetron/cGadgetron/gadgetron_data_containers.cpp:1281-1285 | a failed read or write ends the copy for good |
| AcquisitionQueries.ScatterDefinedIff | src/xGadgetron/cGadgetron/gadgetron_data_containers.cpp:1275-1286 | copying from a separate subset succeeds exactly when every subset position reads and every listed target number resolves |
| AcquisitionQueries.ScatterStep | src/xGadgetron/cGadgetron/gadgetron_data_containers.cpp:1283-1284 | one step writes subset item k at number idx[k] and changes no other number's reading |
| AcquisitionQueries.ScatterPlacesAt | src/xGadgetron/cGadgetron/gadgetron_data_containers.cpp:1281-1285 | after the copy, a number listed for the last time at k reads subset item k |
| AcquisitionQueries.ScatterKeepsAt | src/xGadgetron/cGadgetron/gadgetron_data_containers.cpp:1281-1285 | after the copy, a number that is not listed reads as before |
| AcquisitionQueries.ScatterPlaces | src/xGadgetron/cGadgetron/gadgetron_data_containers.cpp:1275-1286 | after a successful copy every listed number holds its (last) subset item and every other number is unchanged |
| AcquisitionQueries.WriteDefined | src/xGadgetron/cGadgetron/include/sirf/Gadgetron/gadgetron_data_containers.h:743-747 | set_acquisition succeeds exactly when index(num) does |
| AcquisitionQueries.GatherThenScatter | src/xGadgetron/cGadgetron/gadgetron_data_containers.cpp:1260-1286 | putting back a subset just taken from the same numbers leaves the container unchanged, even with repeated numbers |
| AcquisitionQueries.NonEmptyLists | src/xGadgetron/cGadgetron/gadgetron_data_containers.cpp:1144-1150 | get_kspace_order returns only non-empty index lists |
| AcquisitionQueries.NonEmptyListsOfNonEmpty | src/xGadgetron/cGadgetron/gadgetron_data_containers.cpp:1144-1150 | on a table without empty subsets it returns every index list, in table order |
| AcquisitionQueries.FlattenedReads | src/xGadgetron/cGadgetron/gadgetron_data_containers.cpp:1293-1297 | clone's copy loop on a readable container copies, in order, what each number reads |
| AcquisitionQueries.TrajectoryDimsStopped | src/xGadgetron/cGadgetron/gadgetron_data_containers.cpp:220-229 | a read failure or a mismatch ends the loop for good |
| AcquisitionQueries.TrajectoryDimsAgree | src/xGadgetron/cGadgetron/gadgetron_data_containers.cpp:214-231 | when get_trajectory_dimensions returns d, every number reads and every kept acquisition has d or 65535 dimensions; 65535 is returned only when every kept acquisition has 65535 |
| AcquisitionQueries.TrajectoryDimsUniform | src/xGadgetron/cGadgetron/gadgetron_data_containers.cpp:214-231 | when every kept acquisition has t dimensions the result is t, or 65535 when none is kept |
| Acquisitions.AcquisitionsVector.constructor | src/xGadgetron/cGadgetron/include/sirf/Gadgetron/gadgetron_data_containers.h:712-715 | a new container holds no acquisitions, no permutation, no table, is not sorted and carries the given header |
| Acquisitions.AcquisitionsVector.AppendAcquisition | src/xGadgetron/cGadgetron/include/sirf/Gadgetron/gadgetron_data_containers.h:720-724 | the acquisition goes to the end of the storage |
| Acquisitions.AcquisitionsVector.GetAcquisition | src/xGadgetron/cGadgetron/include/sirf/Gadgetron/gadgetron_data_containers.h:731-742 | the result is the stored acquisition number num resolves to, or index(num)'s exception; the status is 0 exactly when TO_BE_IGNORED holds |
| Acquisitions.AcquisitionsVector.SetAcquisition | src/xGadgetron/cGadgetron/include/sirf/Gadgetron/gadgetron_data_containers.h:743-747 | succeeds exactly when index(num) does; then number num reads the new acquisition and every other number reads as before; on failure nothing changes |
| Acquisitions.AcquisitionsVector.Empty | src/xGadgetron/cGadgetron/gadgetron_data_containers.cpp:1305-1309 | the acquisitions and the permutation are gone and the invariant holds |
| Acquisitions.AcquisitionsVector.OrganiseKSpace | src/xGadgetron/cGadgetron/gadgetron_data_containers.cpp:1166-1216 | the table and the outcome are those of Organise, whose partition properties are proved in KSpaceSorting |
| Acquisitions.AcquisitionsVector.SortByTime | src/xGadgetron/cGadgetron/gadgetron_data_containers.cpp:1109-1134 | index_ becomes TimeOrder of the old contents (a stable time sort, see SortByTimePermutes), every number then resolves, the table is organised, and sorted_ is set once organising succeeds |
| Acquisitions.AcquisitionsVector.Sort | src/xGadgetron/cGadgetron/gadgetron_data_containers.cpp:1103-1106 | sort() has the same effect as sort_by_time() |
| Acquisitions.AcquisitionsVector.GetKSpaceOrder | src/xGadgetron/cGadgetron/gadgetron_data_containers.cpp:1136-1151 | the result is KSpaceOrderOf: an empty container and a never-organised table are refused, otherwise the non-empty index lists in table order |
| Acquisitions.AcquisitionsVector.GetFlaggedAcquisitionsIndex | src/xGadgetron/cGadgetron/gadgetron_data_containers.cpp:1219-1241 | the result is Flagged over all numbers (see FlaggedMembers) |
| Acquisitions.AcquisitionsVector.GetTrajectoryDimensions | src/xGadgetron/cGadgetron/gadgetron_data_containers.cpp:214-231 | the result is TrajectoryDimensions: an empty container fails its ASSERT, otherwise the loop described by TrajectoryDimsAgree/Uniform |
| Acquisitions.AcquisitionsVector.Clone | src/xGadgetron/cGadgetron/gadgetron_data_containers.cpp:1289-1302 | the clone is a fresh valid container whose state is CloneOf: the acquisitions read at 0 .. N-1, no permutation, the same flag and header, and an organised table when sorted |
| Acquisitions.CloneReads | src/xGadgetron/cGadgetron/gadgetron_data_containers.cpp:1289-1302 | a clone reads at every number what the original reads there, has as many acquisitions and no permutation; it succeeds only on a readable container, and always on a readable unsorted one |
| Acquisitions.AcquisitionsVector.AppendRead | src/xGadgetron/cGadgetron/gadgetron_data_containers.cpp:1293-1297 | the copy loop appends the acquisitions read at 0 .. N-1 in order, up to the first read that throws |
| Acquisitions.AcquisitionsVector.GetSubset | src/xGadgetron/cGadgetron/gadgetron_data_containers.cpp:1260-1273 | the subset always takes this header; a non-empty subset is refused unchanged; otherwise it receives, in list order, the acquisitions read at the listed numbers, up to the first that throws |
| Acquisitions.AcquisitionsVector.SetSubset | src/xGadgetron/cGadgetron/gadgetron_data_containers.cpp:1275-1286 | a size mismatch is refused with nothing changed; otherwise subset item i is written at number idx[i] in list order, reads seeing earlier writes when the subset is this container |
| Acquisitions.AcquisitionsVector.SetOne | src/xGadgetron/cGadgetron/gadgetron_data_containers.cpp:1283-1284 | one pass of set_subset's loop extends Scatter by one entry, and leaves the storage unchanged when it throws |
| Acquisitions.AcquisitionsVector.Combine | src/xGadgetron/cGadgetron/gadgetron_data_containers.cpp:640-685 | the container algebra loop stores the walk's result over the input snapshots; on an exception sorted_ and the table are untouched; otherwise sorted_ is set and the table re-organised |
| Acquisitions.AcquisitionsVector.WalkInto | src/xGadgetron/cGadgetron/gadgetron_data_containers.cpp:650-681 | the loop leaves the acquisitions and the exception that WalkFrom computes; the permutation is kept |
| Acquisitions.AcquisitionsVector.Axpby | src/xGadgetron/cGadgetron/gadgetron_data_containers.cpp:640-685 | unsorted inputs are refused with nothing changed; otherwise the output holds the walk with a·x + b·y per kept pair; a walk exception is the outcome, with sorted_ and the table untouched; otherwise sorted_ is set, the table is what organise_kspace rebuilds and its exception, if any, is the outcome |
| Acquisitions.AcquisitionsVector.Xapyb | src/xGadgetron/cGadgetron/gadgetron_data_containers.cpp:688-750 | unsorted inputs are refused with nothing changed; otherwise the walk over x, y, a, b with a·x + b·y per sample; a walk exception is the outcome, with sorted_ and the table untouched; otherwise sorted_ is set, the table is what organise_kspace rebuilds and its exception, if any, is the outcome |
| Acquisitions.AcquisitionsVector.XapybScalarA | src/xGadgetron/cGadgetron/gadgetron_data_containers.cpp:753-807 | unsorted inputs are refused with nothing changed; otherwise the walk over x, y, b with scalar a; a walk exception is the outcome, with sorted_ and the table untouched; otherwise sorted_ is set, the table is what organise_kspace rebuilds and its exception, if any, is the outcome |
| Acquisitions.AcquisitionsVector.BinaryOp | src/xGadgetron/cGadgetron/gadgetron_data_containers.cpp:925-969 | unsorted inputs are refused with nothing changed; otherwise the walk applying f sample by sample; a walk exception is the outcome, with sorted_ and the table untouched; otherwise sorted_ is set, the table is what organise_kspace rebuilds and its exception, if any, is the outcome |
| Acquisitions.AcquisitionsVector.SemibinaryOp | src/xGadgetron/cGadgetron/gadgetron_data_containers.cpp:972-1008 | an unsorted input is refused with nothing changed; otherwise the walk applying f(x, c); a walk exception is the outcome, with sorted_ and the table untouched; otherwise sorted_ is set, the table is what organise_kspace rebuilds and its exception, if any, is the outcome |
| Acquisitions.AcquisitionsVector.UnaryOp | src/xGadgetron/cGadgetron/gadgetron_data_containers.cpp:1011-1047 | an unsorted input is refused with nothing changed; otherwise the walk applying f(x); a walk exception is the outcome, with sorted_ and the table untouched; otherwise sorted_ is set, the table is what organise_kspace rebuilds and its exception, if any, is the outcome |
| Acquisitions.AcquisitionsVector.Dot | src/xGadgetron/cGadgetron/gadgetron_data_containers.cpp:574-597 | the result is ContainerDot, conjugate symmetric by ContainerDotConjugateSymmetric |
| Acquisitions.AcquisitionsVector.Sum | src/xGadgetron/cGadgetron/gadgetron_data_containers.cpp:600-615 | the result is ContainerSum, the sum of sum(a) over the kept acquisitions |
| Acquisitions.AcquisitionsVector.Max | src/xGadgetron/cGadgetron/gadgetron_data_containers.cpp:618-637 | the result is ContainerMax, bounded as ContainerMaxBounds states |
| Acquisitions.AcquisitionsVector.NormSq | src/xGadgetron/cGadgetron/gadgetron_data_containers.cpp:1050-1063 | the result is ContainerNormSq, the real part of dot(x, x) by ContainerNormSqIsDot |
| Acquisitions.TrajectoryLoop | src/xGadgetron/cGadgetron/gadgetron_data_containers.cpp:220-229 | the loop computes TrajectoryDims over every number |
| Acquisitions.ReadTimeKeys | src/xGadgetron/cGadgetron/gadgetron_data_containers.cpp:1118-1125 | the key loop reads exactly TimeKeys |
| Acquisitions.NewTable | src/xGadgetron/cGadgetron/gadgetron_data_containers.cpp:1188-1202 | the nested loops create every subset of the bounds in row-major order with an empty list |
| Acquisitions.PlaceAcquisitions | src/xGadgetron/cGadgetron/gadgetron_data_containers.cpp:1204-1212 | the placing loop fills the table with each acquisition's number at its access index, and stops with the first read or .at exception |
| Acquisitions.PlaceStep | src/xGadgetron/cGadgetron/gadgetron_data_containers.cpp:1206-1211 | one acquisition fails to read, falls outside the table, or is placed at its access index |
| Acquisitions.RemoveEmpty | src/xGadgetron/cGadgetron/gadgetron_data_containers.cpp:1213-1215 | the erase-remove_if computes DropEmpty |
| Acquisitions.WriteThenReadAll | src/xGadgetron/cGadgetron/include/sirf/Gadgetron/gadgetron_data_containers.h:743-747 | a write through a resolved number changes that number's reading and no other |
| Acquisitions.StableSort | src/xGadgetron/cGadgetron/gadgetron_data_containers.cpp:1126-1128 | iota followed by the stable sort computes StableOrder |
| Acquisitions.InsertionPoint | src/xGadgetron/cGadgetron/gadgetron_data_containers.cpp:1127-1128 | the scan finds InsertPos, the first entry with a larger key |
| Acquisitions.InsertPosIs | src/xGadgetron/cGadgetron/gadgetron_data_containers.cpp:1127-1128 | a position after every entry with key not above keys[i] and before a larger one is the insertion point |
| Acquisitions.Reduce | src/xGadgetron/cGadgetron/gadgetron_data_containers.cpp:574-637 | the reduction loops compute Reduced: the values of the walk folded, or its exception |
| AcquisitionOps.Axpby | src/xGadgetron/cGadgetron/gadgetron_data_containers.cpp:318-332 | y keeps its header; over the common length its samples become a·x + b·y (a·x when b is zero); its other samples and its length stay |
| AcquisitionOps.XapybScalars | src/xGadgetron/cGadgetron/gadgetron_data_containers.cpp:334-340 | the scalar xapyb has exactly axpby's effect |
| AcquisitionOps.Xapyb4 | src/xGadgetron/cGadgetron/gadgetron_data_containers.cpp:342-358 | defined exactly when x and a reach the shorter of y and b (the loop tests only those two ends); then a·x + b·y over that length, the rest of y kept |
| AcquisitionOps.Xapyb3 | src/xGadgetron/cGadgetron/gadgetron_data_containers.cpp:360-375 | a·x + b·y over the common length of x, y and b, the rest of y kept |
| AcquisitionOps.BinaryOp | src/xGadgetron/cGadgetron/gadgetron_data_containers.cpp:377-388 | y[k] := f(x[k], y[k]) over the common length, the rest of y kept |
| AcquisitionOps.SemibinaryOp | src/xGadgetron/cGadgetron/gadgetron_data_containers.cpp:390-401 | y[k] := f(x[k], c) over the common length, the rest of y kept |
| AcquisitionOps.UnaryOp | src/xGadgetron/cGadgetron/gadgetron_data_containers.cpp:403-414 | y[k] := f(x[k]) over the common length, the rest of y kept |
| AcquisitionOps.Multiply | src/xGadgetron/cGadgetron/gadgetron_data_containers.cpp:416-421 | multiply is binary_op with the complex product |
| AcquisitionOps.MultiplyScalar | src/xGadgetron/cGadgetron/gadgetron_data_containers.cpp:423-428 | multiply by a scalar is semibinary_op with the complex product |
| AcquisitionOps.AddScalar | src/xGadgetron/cGadgetron/gadgetron_data_containers.cpp:430-435 | add a scalar is semibinary_op with the complex sum |
| AcquisitionOps.AxpbyIsXapyb3 | src/xGadgetron/cGadgetron/gadgetron_data_containers.cpp:318-375 | axpby equals the three-operand xapyb with b repeated over every sample |
| AcquisitionOps.Xapyb4WithScalarA | src/xGadgetron/cGadgetron/gadgetron_data_containers.cpp:342-375 | the four-operand xapyb with a constant a equals the three-operand one, when x is long enough |
| AcquisitionOps.Xapyb4DefinedIff | src/xGadgetron/cGadgetron/gadgetron_data_containers.cpp:351-356 | the four-operand loop stays inside x and a exactly when both reach the shorter of y and b |
| AcquisitionOps.ElementwiseKeepsTail | src/xGadgetron/cGadgetron/gadgetron_data_containers.cpp:318-414 | axpby, both xapyb forms (the four-operand one when defined), binary_op, semibinary_op and unary_op keep y's length and its samples past the end of x |
| AcquisitionOps.MaxUpTo | src/xGadgetron/cGadgetron/gadgetron_data_containers.cpp:559-571 | max(acq) has real part at least zero and at least every sample's, and is zero or one of the samples |
| AcquisitionOps.Dot | src/xGadgetron/cGadgetron/gadgetron_data_containers.cpp:521-533 | dot(a, b) is the sum of conj(b[k])·a[k] over the common length |
| AcquisitionOps.Sum | src/xGadgetron/cGadgetron/gadgetron_data_containers.cpp:549-556 | sum(a) is the sum of the samples |
| AcquisitionOps.Max | src/xGadgetron/cGadgetron/gadgetron_data_containers.cpp:559-571 | the loop computes MaxUpTo over all samples |
| AcquisitionOps.NormSq | src/xGadgetron/cGadgetron/gadgetron_data_containers.cpp:536-546 | the sum norm() takes the square root of is the sum of the real parts of conj(a[k])·a[k] |
| AcquisitionOps.DotSelf | src/xGadgetron/cGadgetron/gadgetron_data_containers.cpp:521-546 | dot(a, a) is the real number norm(a)² |
| AcquisitionOps.DotConjugateSymmetric | src/xGadgetron/cGadgetron/gadgetron_data_containers.cpp:521-533 | dot(a, b) is the conjugate of dot(b, a) |
| AcquisitionOps.SumOfShifted | src/xGadgetron/cGadgetron/gadgetron_data_containers.cpp:430-435 | summing after adding c to every sample adds n copies of c |
| ContainerWalk.RemainingNonNegative | src/xGadgetron/cGadgetron/gadgetron_data_containers.cpp:656 | the cursors' remaining count, the loop's termination measure, is non-negative |
| ContainerWalk.RemainingStep | src/xGadgetron/cGadgetron/gadgetron_data_containers.cpp:656-682 | moving cursors forward never raises the remaining count, and moving one lowers it |
| ContainerWalk.Advance | src/xGadgetron/cGadgetron/gadgetron_data_containers.cpp:679-681 | the cursors all move one step |
| ContainerWalk.ScanInputs | src/xGadgetron/cGadgetron/gadgetron_data_containers.cpp:657-666 | the probe of the inputs stops at the first ignored item, naming that input, or reads an item from every input |
| ContainerWalk.ScanInputsStopped | src/xGadgetron/cGadgetron/gadgetron_data_containers.cpp:657-666 | once an input has failed or been skipped, later inputs are not read |
| ContainerWalk.KeptUpTo | src/xGadgetron/cGadgetron/gadgetron_data_containers.cpp:657-666 | the kept numbers below n are numbers below n |
| ContainerWalk.CountBound | src/xGadgetron/cGadgetron/gadgetron_data_containers.cpp:656-682 | a cursor has passed no more kept items than exist |
| ContainerWalk.KeptAt | src/xGadgetron/cGadgetron/gadgetron_data_containers.cpp:656-682 | a cursor on a kept item after j kept ones is on the j-th kept number |
| ContainerWalk.MinKept | src/xGadgetron/cGadgetron/gadgetron_data_containers.cpp:656 | the walk takes as many steps as the input with the fewest kept items allows |
| ContainerWalk.Row | src/xGadgetron/cGadgetron/gadgetron_data_containers.cpp:674 | each step reads one item from every input |
| ContainerWalk.Results | src/xGadgetron/cGadgetron/gadgetron_data_containers.cpp:674-678 | the results of m steps number m |
| ContainerWalk.ScanFacts | src/xGadgetron/cGadgetron/gadgetron_data_containers.cpp:657-666 | with every cursor in range no read fails, and the probe reports what it read |
| ContainerWalk.StepsBounded | src/xGadgetron/cGadgetron/gadgetron_data_containers.cpp:656-682 | cursors that each passed j kept items have taken at most MinKept steps |
| ContainerWalk.SkipKeepsCounts | src/xGadgetron/cGadgetron/gadgetron_data_containers.cpp:657-666 | a skipped input keeps its count of kept items passed |
| ContainerWalk.OnKeptItems | src/xGadgetron/cGadgetron/gadgetron_data_containers.cpp:656-682 | cursors resting on kept items after j kept ones rest on the j-th kept numbers |
| ContainerWalk.ReadyReadsRow | src/xGadgetron/cGadgetron/gadgetron_data_containers.cpp:657-674 | when every cursor rests on its j-th kept item, the step reads row j |
| ContainerWalk.SkipStep | src/xGadgetron/cGadgetron/gadgetron_data_containers.cpp:657-666 | a cursor on an ignored item steps past it, the counts passed unchanged |
| ContainerWalk.AppendReady | src/xGadgetron/cGadgetron/gadgetron_data_containers.cpp:674-681 | one append step adds the j-th result |
| ContainerWalk.WalkAppendsFrom | src/xGadgetron/cGadgetron/gadgetron_data_containers.cpp:656-682 | from any point where every cursor passed j kept items, the append loop adds results j .. MinKept-1 |
| ContainerWalk.WalkAppends | src/xGadgetron/cGadgetron/gadgetron_data_containers.cpp:655-682 | appending to an empty output: the output receives one result per step, the j-th computed from the j-th kept item of every input, for MinKept steps, without exception |
| ContainerWalk.Overwritten | src/xGadgetron/cGadgetron/gadgetron_data_containers.cpp:667-678 | overwriting keeps the output's number of stored items |
| ContainerWalk.KeptStrictlyIncreasing | src/xGadgetron/cGadgetron/gadgetron_data_containers.cpp:656-682 | the kept numbers are strictly increasing |
| ContainerWalk.OverwrittenAt | src/xGadgetron/cGadgetron/gadgetron_data_containers.cpp:667-678 | a stored item holds the j'-th result when it backs the j'-th kept number, and its old item otherwise |
| ContainerWalk.UnreachedUnchanged | src/xGadgetron/cGadgetron/gadgetron_data_containers.cpp:667-672 | reading the output at a number the output cursor has not passed still sees the old item, so reading and writing the same container is safe |
| ContainerWalk.OverwrittenPrefix | src/xGadgetron/cGadgetron/gadgetron_data_containers.cpp:667-678 | overwriting with j results uses only the first j |
| ContainerWalk.OverwriteStep | src/xGadgetron/cGadgetron/gadgetron_data_containers.cpp:678 | writing the next result at the next kept number extends the overwritten prefix by one |
| ContainerWalk.OverwriteOffEnd | src/xGadgetron/cGadgetron/gadgetron_data_containers.cpp:667-678 | when the output cursor has run off the output's end, set_acquisition's index(k) throws |
| ContainerWalk.OverwriteSkipsOutput | src/xGadgetron/cGadgetron/gadgetron_data_containers.cpp:667-672 | an output cursor on an ignored item steps past it |
| ContainerWalk.OverwriteReady | src/xGadgetron/cGadgetron/gadgetron_data_containers.cpp:667-681 | an output cursor on a kept item receives the j-th result |
| ContainerWalk.OverwriteStops | src/xGadgetron/cGadgetron/gadgetron_data_containers.cpp:656 | the inputs are exhausted after the last step, and the loop ends with every result written |
| ContainerWalk.IterationSkipsInput | src/xGadgetron/cGadgetron/gadgetron_data_containers.cpp:657-666 | an input cursor on an ignored item: the loop continues with that cursor one step on |
| ContainerWalk.IterationOffEnd | src/xGadgetron/cGadgetron/gadgetron_data_containers.cpp:667-678 | the output has no kept number left: the loop ends with index(k)'s exception |
| ContainerWalk.IterationSkipsOutput | src/xGadgetron/cGadgetron/gadgetron_data_containers.cpp:667-672 | the output cursor on an ignored item: the loop continues past it |
| ContainerWalk.IterationWrites | src/xGadgetron/cGadgetron/gadgetron_data_containers.cpp:674-681 | every cursor ready: the result is written and every cursor moves on |
| ContainerWalk.OverwriteIteration | src/xGadgetron/cGadgetron/gadgetron_data_containers.cpp:656-682 | every iteration of the overwrite loop keeps the bookkeeping or ends where OverwriteEnd says |
| ContainerWalk.WalkOverwritesFrom | src/xGadgetron/cGadgetron/gadgetron_data_containers.cpp:656-682 | from any point where the inputs passed j kept items and the output cursor j kept numbers, the loop ends where OverwriteEnd says |
| ContainerWalk.WalkOverwrites | src/xGadgetron/cGadgetron/gadgetron_data_containers.cpp:655-682 | overwriting a non-empty output: the j-th kept number of the output receives the j-th result; when the output has fewer kept numbers than there are steps, index(k) throws after the last of them is written |
| ContainerWalk.Zeros | src/xGadgetron/cGadgetron/gadgetron_data_containers.cpp:656 | the cursors start at 0 |
| ContainerAlgebra.ProbeInputs | src/xGadgetron/cGadgetron/gadgetron_data_containers.cpp:657-666 | the tests at the head of the loop compute ScanInputs |
| ContainerAlgebra.WalkStep | src/xGadgetron/cGadgetron/gadgetron_data_containers.cpp:656-682 | one pass through the loop body either ends the walk with the exception Walk predicts or continues it with the same final result, and the remaining count or the output cursor's distance decreases |
| ContainerAlgebra.TotalStep | src/xGadgetron/cGadgetron/gadgetron_data_containers.cpp:591-632 | the running total of a prefix extended by one value is the total of the longer prefix |
| ContainerAlgebra.TotalOfNext | src/xGadgetron/cGadgetron/gadgetron_data_containers.cpp:591-632 | the total after a step that appended at most one value |
| ContainerAlgebra.SumUpToPrefix | src/xGadgetron/cGadgetron/gadgetron_data_containers.cpp:549-615 | a sum looks only at its first n values |
| ContainerAlgebra.MaxUpToPrefix | src/xGadgetron/cGadgetron/gadgetron_data_containers.cpp:559-637 | a maximum looks only at its first n values |
| ContainerAlgebra.ReducedOfReadable | src/xGadgetron/cGadgetron/gadgetron_data_containers.cpp:574-637 | on readable inputs a reduction folds the per-step values of the paired kept acquisitions |
| ContainerAlgebra.SumUpToConj | src/xGadgetron/cGadgetron/gadgetron_data_containers.cpp:591 | conjugating every value conjugates the sum |
| ContainerAlgebra.SwappedRows | src/xGadgetron/cGadgetron/gadgetron_data_containers.cpp:582-594 | the kept acquisitions of two containers pair up the same way whichever container comes first |
| ContainerAlgebra.SwappedRowsCount | src/xGadgetron/cGadgetron/gadgetron_data_containers.cpp:582-594 | the number of pairs does not depend on the order of the two containers |
| ContainerAlgebra.ContainerDotConjugateSymmetric | src/xGadgetron/cGadgetron/gadgetron_data_containers.cpp:574-597 | on readable containers, x.dot(y) is the conjugate of y.dot(x) |
| ContainerAlgebra.ResultsConjugate | src/xGadgetron/cGadgetron/gadgetron_data_containers.cpp:582-594 | the values x.dot(y) adds up are the conjugates of those y.dot(x) adds up, pair by pair |
| ContainerAlgebra.DotRowsConjugate | src/xGadgetron/cGadgetron/gadgetron_data_containers.cpp:591 | the j-th value x.dot(y) adds up is the conjugate of y.dot(x)'s j-th value |
| ContainerAlgebra.ContainerNormSqIsDot | src/xGadgetron/cGadgetron/gadgetron_data_containers.cpp:1050-1063 | norm()² is the real part of x.dot(x) on a readable container |
| ContainerAlgebra.NormRowIsDotRow | src/xGadgetron/cGadgetron/gadgetron_data_containers.cpp:1056-1060 | the j-th value norm() adds up is dot(a, a) of the j-th kept acquisition |
| ContainerAlgebra.ContainerMaxBounds | src/xGadgetron/cGadgetron/gadgetron_data_containers.cpp:618-637 | max() over a readable container is at least zero and has real part at least that of every kept acquisition's max(a) |
| ContainerAlgebra.MaxRowIsResult | src/xGadgetron/cGadgetron/gadgetron_data_containers.cpp:623-633 | the j-th value max() compares is max(a) of the j-th kept acquisition |
| ContainerWalk.WalkStops | src/xGadgetron/cGadgetron/gadgetron_data_containers.cpp:656 | the loop ends normally once an input is exhausted |
| ContainerWalk.WalkSkipsInput | src/xGadgetron/cGadgetron/gadgetron_data_containers.cpp:657-666 | an input on an ignored acquisition moves on by one and the walk continues |
| ContainerWalk.WalkReadFails | src/xGadgetron/cGadgetron/gadgetron_data_containers.cpp:657-666 | a failed read ends the walk with that read's exception |
| ContainerWalk.WalkStepFails | src/xGadgetron/cGadgetron/gadgetron_data_containers.cpp:674 | a failing per-item operation ends the walk with its error, the output as far as written |
| ContainerWalk.WalkAppendsOne | src/xGadgetron/cGadgetron/gadgetron_data_containers.cpp:674-681 | an append step adds the result to the output's end and advances every cursor |
| ContainerWalk.WalkOutputFails | src/xGadgetron/cGadgetron/gadgetron_data_containers.cpp:667-669 | an output read that fails ends the walk with that read's exception |
| ContainerWalk.WalkSkipsOutput | src/xGadgetron/cGadgetron/gadgetron_data_containers.cpp:667-672 | an ignored output acquisition is stepped over, the inputs held |
| ContainerWalk.WalkOverwritesOne | src/xGadgetron/cGadgetron/gadgetron_data_containers.cpp:667-681 | an overwrite step writes the result at the output's number k and advances every cursor |
| ContainerWalk.KeptUpToPrefix | src/xGadgetron/cGadgetron/gadgetron_data_containers.cpp:656-682 | the kept numbers below a are a prefix of those below b |
| ContainerWalk.ResultsStep | src/xGadgetron/cGadgetron/gadgetron_data_containers.cpp:674-681 | the results of j+1 steps are those of j steps plus row j's result |
| Images.ArgAt | src/xGadgetron/cGadgetron/include/sirf/Gadgetron/gadgetron_data_containers.h:1056-1066 | a number contributes itself to every image; a container contributes its image i as index(i) finds it |
| Images.ArgsAt | src/xGadgetron/cGadgetron/include/sirf/Gadgetron/gadgetron_data_containers.h:1056-1066 | the operands' contributions to image i, one per operand, in order |
| Images.CollectIs | src/xGadgetron/cGadgetron/include/sirf/Gadgetron/gadgetron_data_containers.h:1060-1067 | a loop that appends one image per step keeps the images of the steps before the first that threw, in step order, and reports that step's exception |
| Images.OverwriteOne | src/xGadgetron/cGadgetron/include/sirf/Gadgetron/gadgetron_data_containers.h:1056-1058 | the image written for step i sits at index(i) of the output and is the operation on the output's image and the operands' |
| Images.AppendOne | src/xGadgetron/cGadgetron/include/sirf/Gadgetron/gadgetron_data_containers.h:1062-1066 | the image appended for step i is a copy of image i of x, rewritten by the operation |
| Images.OverwriteFromNoMismatch | src/xGadgetron/cGadgetron/include/sirf/Gadgetron/gadgetron_data_containers.h:1055-1058 | the overwrite loop never throws a size mismatch |
| Images.AppendFromNoMismatch | src/xGadgetron/cGadgetron/include/sirf/Gadgetron/gadgetron_data_containers.h:1060-1067 | the append loop never throws a size mismatch |
| Images.ElementwiseRejectsIff | src/xGadgetron/cGadgetron/include/sirf/Gadgetron/gadgetron_data_containers.h:1045-1054 | the operation throws a size mismatch, leaving the output as it was, exactly when an operand's size differs from x's or a non-empty output's does |
| Images.OverwriteResult | src/xGadgetron/cGadgetron/include/sirf/Gadgetron/gadgetron_data_containers.h:1053-1058 | a non-empty output of matching size with readable operands: no exception, and the image at index(i) becomes the operation on it and the operands' images i, the others unchanged |
| Images.OverwriteFromIs | src/xGadgetron/cGadgetron/include/sirf/Gadgetron/gadgetron_data_containers.h:1055-1058 | from step i on, the overwrite loop rewrites the images of steps i .. n-1 and nothing else |
| Images.OverwriteStep | src/xGadgetron/cGadgetron/include/sirf/Gadgetron/gadgetron_data_containers.h:1056-1058 | writing image i through index(i) extends the rewritten prefix by one |
| Images.AppendResult | src/xGadgetron/cGadgetron/include/sirf/Gadgetron/gadgetron_data_containers.h:1059-1067 | an empty output with readable operands: no exception, and the output holds one image per image of x, the operation applied to a copy of it |
| Images.AppendFromIs | src/xGadgetron/cGadgetron/include/sirf/Gadgetron/gadgetron_data_containers.h:1060-1067 | from step i on, the append loop appends the images of steps i .. n-1 |
| Images.ReadableWhenFits | src/xGadgetron/cGadgetron/include/sirf/Gadgetron/gadgetron_data_containers.h:981-990 | every image of a container whose permutation is absent or covers all its images can be read |
| Images.ArgsReadable | src/xGadgetron/cGadgetron/include/sirf/Gadgetron/gadgetron_data_containers.h:1045-1058 | operands that pass the size checks can be read at every image below x's count |
| Images.ImagesAt | src/xGadgetron/cGadgetron/gadgetron_data_containers.cpp:1420-1460 | image i of every input, in order |
| Images.ImageValues | src/xGadgetron/cGadgetron/gadgetron_data_containers.cpp:1420-1460 | the per-image values for the first m images, or the exception of the first image that cannot be read |
| Images.ImageValuesOfReadable | src/xGadgetron/cGadgetron/gadgetron_data_containers.cpp:1420-1460 | once every image can be read there is one value per image, f of image i |
| Images.ReducedMaxBounds | src/xGadgetron/cGadgetron/gadgetron_data_containers.cpp:1447-1460 | max() is at least zero and at least every image's maximum, and is zero or one of them |
| Images.ReducedSumStep | src/xGadgetron/cGadgetron/gadgetron_data_containers.cpp:1434-1444 | sum() over one more image adds that image's sum |
| Images.ConcatPrefix | src/xGadgetron/cGadgetron/include/sirf/Gadgetron/gadgetron_data_containers.h:1120-1132 | flattening one more image appends its samples |
| Images.ConcatPrefixLength | src/xGadgetron/cGadgetron/include/sirf/Gadgetron/gadgetron_data_containers.h:1120-1132 | the samples before image i number the sum of the earlier images' sizes |
| Images.ConcatAll | src/xGadgetron/cGadgetron/include/sirf/Gadgetron/gadgetron_data_containers.h:1120-1153 | flattening every image gives all the samples |
| Images.Step | src/xGadgetron/cGadgetron/include/sirf/Gadgetron/gadgetron_data_containers.h:1120-1132 | operator++ throws on the last image at its end and otherwise stays within the data |
| Images.StepAdvancesFlat | src/xGadgetron/cGadgetron/include/sirf/Gadgetron/gadgetron_data_containers.h:1120-1132 | a step that does not throw moves the flattened position on by exactly one sample |
| Images.StepFailsIffAtEnd | src/xGadgetron/cGadgetron/include/sirf/Gadgetron/gadgetron_data_containers.h:1120-1132 | in non-empty images, from a position begin() reaches, stepping throws exactly at end() and otherwise reaches such a position again |
| Images.DerefIsFlattened | src/xGadgetron/cGadgetron/include/sirf/Gadgetron/gadgetron_data_containers.h:1147-1153 | at such a position short of end(), operator* reads the sample at its flattened position |
| Images.ConcatPrefixAgree | src/xGadgetron/cGadgetron/include/sirf/Gadgetron/gadgetron_data_containers.h:1120-1153 | a shorter prefix of the images flattens to a prefix of a longer one's flattening |
| Images.BeginAndEnd | src/xGadgetron/cGadgetron/include/sirf/Gadgetron/gadgetron_data_containers.h:1340-1354 | begin() sits at flattened position 0 and end() after the last sample |
| Images.FlatInjective | src/xGadgetron/cGadgetron/include/sirf/Gadgetron/gadgetron_data_containers.h:1110-1119 | two reachable positions with the same flattened position are equal, so comparing image and sample numbers, as operator== does, compares places in the flattened data |
| Images.ImageIterator.Begin | src/xGadgetron/cGadgetron/include/sirf/Gadgetron/gadgetron_data_containers.h:1340-1345 | begin() stands on the first sample of image 0 |
| Images.ImageIterator.End | src/xGadgetron/cGadgetron/include/sirf/Gadgetron/gadgetron_data_containers.h:1346-1354 | end() stands on the last image, past its last sample |
| Images.ImageIterator.Advance | src/xGadgetron/cGadgetron/include/sirf/Gadgetron/gadgetron_data_containers.h:1120-1132 | operator++ moves to Step's position or throws exactly where Step does |
| Images.ImageIterator.Get | src/xGadgetron/cGadgetron/include/sirf/Gadgetron/gadgetron_data_containers.h:1147-1153 | operator* returns the sample under the iterator, or throws where Deref does |
| Images.ImagesVector.constructor | src/xGadgetron/cGadgetron/include/sirf/Gadgetron/gadgetron_data_containers.h:1242 | a new container with no images, no permutation and the given header |
| Images.ImagesVector.Append | src/xGadgetron/cGadgetron/include/sirf/Gadgetron/gadgetron_data_containers.h:1276-1284 | the image goes to the end of the storage; nothing else changes |
| Images.ImagesVector.ClearData | src/xGadgetron/cGadgetron/include/sirf/Gadgetron/gadgetron_data_containers.h:1291-1295 | the images go; the permutation and the sorted flag stay |
| Images.ImagesVector.SetMetaData | src/xGadgetron/cGadgetron/gadgetron_data_containers.cpp:1982-1987 | the header is replaced; the images stay |
| Images.ImagesVector.Combine | src/xGadgetron/cGadgetron/include/sirf/Gadgetron/gadgetron_data_containers.h:1035-1069 | the container becomes Elementwise of its old contents and the operands, and takes x's header only when no size mismatch is thrown |
| Images.ImagesVector.Overwrite | src/xGadgetron/cGadgetron/include/sirf/Gadgetron/gadgetron_data_containers.h:1055-1058 | the loop of a non-empty output leaves OverwriteFrom's images |
| Images.ImagesVector.AppendAll | src/xGadgetron/cGadgetron/include/sirf/Gadgetron/gadgetron_data_containers.h:1060-1067 | the loop of an empty output appends AppendFrom's images |
| Images.ImagesVector.Xapyb | src/xGadgetron/cGadgetron/include/sirf/Gadgetron/gadgetron_data_containers.h:1035-1069 | xapyb leaves Combine's images and outcome, with a and b each a number or a container of factors (except a container a with a number b, whose overload is commented out), and takes x's header unless a size mismatch is thrown |
| Images.ImagesVector.Axpby | src/xGadgetron/cGadgetron/gadgetron_data_containers.cpp:1463-1492 | axpby is Combine with the numbers a and b, and takes x's header unless a size mismatch is thrown |
| Images.ImagesVector.BinaryOp | src/xGadgetron/cGadgetron/gadgetron_data_containers.cpp:1495-1520 | binary_op is Combine with the per-image operation f on x and y, and takes x's header unless a size mismatch is thrown |
| Images.ImagesVector.SemibinaryOp | src/xGadgetron/cGadgetron/gadgetron_data_containers.cpp:1523-1544 | semibinary_op is Combine with f and the number c, and takes x's header unless a size mismatch is thrown |
| Images.ImagesVector.UnaryOp | src/xGadgetron/cGadgetron/gadgetron_data_containers.cpp:1547-1567 | unary_op is Combine with f on x alone, and takes x's header unless a size mismatch is thrown |
| Images.ImagesVector.CheckDimensionConsistency | src/xGadgetron/cGadgetron/include/sirf/Gadgetron/gadgetron_data_containers.h:859-873 | throws exactly on an empty container and otherwise returns DimensionsChecked, whatever the images' sizes |
| Images.ImagesVector.Dot | src/xGadgetron/cGadgetron/gadgetron_data_containers.cpp:1420-1431 | dot(other) is the reduction of the per-image dot products |
| Images.ImagesVector.Sum | src/xGadgetron/cGadgetron/gadgetron_data_containers.cpp:1434-1444 | sum() is the reduction of the per-image sums |
| Images.ImagesVector.Max | src/xGadgetron/cGadgetron/gadgetron_data_containers.cpp:1447-1460 | max() is the reduction by largest real part, starting from zero |
| Images.DimensionsCheckedIgnoresImages | src/xGadgetron/cGadgetron/include/sirf/Gadgetron/gadgetron_data_containers.h:859-873 | check_dimension_consistency throws exactly on an empty container and otherwise returns true |
| Images.DimensionsCheckedMissesMismatch | src/xGadgetron/cGadgetron/include/sirf/Gadgetron/gadgetron_data_containers.h:859-873 | two images of different sizes pass check_dimension_consistency, because it compares image 0 with itself |
| Images.ClearedPermutationOutOfRange | src/xGadgetron/cGadgetron/include/sirf/Gadgetron/gadgetron_data_containers.h:1291-1302 | after clear_data keeps the permutation [1, 0] and one image is appended, reading number 0 throws out of range |
| Images.ReduceImages | src/xGadgetron/cGadgetron/gadgetron_data_containers.cpp:1420-1460 | the reduction loop over the first m images computes ImagesReduced |
| Images.FirstFailureStays | src/xGadgetron/cGadgetron/gadgetron_data_containers.cpp:1420-1460 | once image i-1 cannot be read, every longer reduction throws the same exception |
| CoilImages.EncodingFor | src/xGadgetron/cGadgetron/gadgetron_data_containers.cpp:2482-2507 | an encoding is chosen exactly when the trajectory is Cartesian, or the build has the non-Cartesian toolboxes, the trajectory is not EPI and the acquisitions agree on a positive number of trajectory dimensions; the chosen encoding reconstructs that trajectory |
| CoilImages.CalibrationNonCartesian | src/xGadgetron/cGadgetron/gadgetron_data_containers.cpp:2536-2538 | for a trajectory other than Cartesian the calibration data is a clone: it reads at every number what ad reads |
| CoilImages.CalibrationCartesian | src/xGadgetron/cGadgetron/gadgetron_data_containers.cpp:2538-2548 | with calibration acquisitions present, the calibration data holds exactly the acquisitions flagged for parallel calibration (alone or with imaging), in ascending number order, sorted by time with an identity permutation |
| CoilImages.CalibrationWithoutFlags | src/xGadgetron/cGadgetron/gadgetron_data_containers.cpp:2540-2543 | a Cartesian trajectory without calibration acquisitions returns the clone unchanged |
| CoilImages.CalibrationKeepsHeader | src/xGadgetron/cGadgetron/gadgetron_data_containers.cpp:2536-2548 | the calibration data carries ad's header |
| CoilImages.SubsetSteps | src/xGadgetron/cGadgetron/gadgetron_data_containers.cpp:2514-2524 | the images of the first n subsets, each reconstructed from its subset |
| CoilImages.SubsetImagesAre | src/xGadgetron/cGadgetron/gadgetron_data_containers.cpp:2514-2524 | the loop appends image k for subset k, in order, and stops with the exception of the first subset that has no image |
| CoilImages.CalculationAppends | src/xGadgetron/cGadgetron/gadgetron_data_containers.cpp:2480-2525 | when calculate completes it has appended one image per k-space subset of the calibration data, each reconstructed from that subset by the chosen encoding; a Cartesian trajectory always chooses the Cartesian encoding; the header set is ad's |
| CoilImages.Refill | src/xGadgetron/cGadgetron/gadgetron_data_containers.cpp:2545-2547 | the Cartesian branch empties the clone, copies in the flagged acquisitions and sorts by time, as Refilled states, or fails as Refilled does |
| CoilImages.ReconstructSubset | src/xGadgetron/cGadgetron/gadgetron_data_containers.cpp:2516-2521 | one pass of the loop returns subset k's image as SubsetImage states |
| CoilImages.CoilImagesVector.constructor | src/xGadgetron/cGadgetron/include/sirf/Gadgetron/gadgetron_data_containers.h:1418 | a new container with no images and no encoding |
| CoilImages.CoilImagesVector.ChooseEncoding | src/xGadgetron/cGadgetron/gadgetron_data_containers.cpp:2482-2507 | the encoding choice is EncodingFor |
| CoilImages.CoilImagesVector.ExtractCalibrationData | src/xGadgetron/cGadgetron/gadgetron_data_containers.cpp:2528-2550 | a fresh valid container whose state is CalibrationOf(ad), or CalibrationOf's exception |
| CoilImages.CoilImagesVector.Calculate | src/xGadgetron/cGadgetron/gadgetron_data_containers.cpp:2480-2525 | the images become the old images followed by the appended ones, the encoding and header are set as far as calculate got, and the outcome is CalculationOf's |
| CoilImages.CoilImagesVector.Reconstruct | src/xGadgetron/cGadgetron/gadgetron_data_containers.cpp:2514-2524 | the loop appends SubsetImages' images and reports its exception |
| Grid.PosInjective | src/xGadgetron/cGadgetron/gadgetron_data_containers.cpp:2908 | two voxels inside the extent never share a flat position |
| Grid.DecodePos | src/xGadgetron/cGadgetron/gadgetron_data_containers.cpp:2848-2851 | the voxel stored at a voxel's flat position is that voxel: positions and voxels correspond one to one |
| Grid.PosBelowSize | src/xGadgetron/cGadgetron/gadgetron_data_containers.cpp:2848-2851 | every voxel inside the extent has a flat position inside the array |
| Grid.PosExpanded | src/xGadgetron/cGadgetron/gadgetron_data_containers.cpp:2908 | the flat position is x + nx·y + nx·ny·z + nx·ny·nz·c, the index max_diff_ computes |
| Grid.PosShift | src/xGadgetron/cGadgetron/gadgetron_data_containers.cpp:2865-2866 | moving by (jx, jy) within one slice and channel moves the position by jx + jy·nx, the smoothing window's offset |
| Grid.BeforePosLess | src/xGadgetron/cGadgetron/gadgetron_data_containers.cpp:2848-2851 | the order in which the loop nests visit voxels is the order of their flat positions, so a counter incremented once per voxel is the flat position |
| Grid.SpatialBefore | src/xGadgetron/cGadgetron/gadgetron_data_containers.cpp:2806-2808 | the voxel loops without a channel loop visit positions in one-channel array order |
| CoilMaps.Fabs | src/xGadgetron/cGadgetron/gadgetron_data_containers.cpp:2835 | fabs is non-negative and returns x or -x |
| CoilMaps.NoiseMask | src/xGadgetron/cGadgetron/gadgetron_data_containers.cpp:2832-2837 | one mask entry per voxel |
| CoilMaps.NoiseMaskAntitone | src/xGadgetron/cGadgetron/gadgetron_data_containers.cpp:2836 | a voxel kept at some noise level is kept at every lower level |
| CoilMaps.MaskNoise | src/xGadgetron/cGadgetron/gadgetron_data_containers.cpp:2828-2838 | the first nx·ny·nz mask entries become 1 exactly where the image magnitude exceeds the noise level, 0 elsewhere; the rest of the mask is untouched |
| CoilMaps.MaxAbsIsMaximum | src/xGadgetron/cGadgetron/gadgetron_data_containers.cpp:2881-2894 | max_ is at least 0, at least every magnitude, and 0 or one of the magnitudes |
| CoilMaps.Max | src/xGadgetron/cGadgetron/gadgetron_data_containers.cpp:2881-2894 | max_ returns MaxAbs over the first nx·ny·nz entries |
| CoilMaps.MaxRow | src/xGadgetron/cGadgetron/gadgetron_data_containers.cpp:2888-2892 | the x loop of one row extends the running maximum over that row |
| CoilMaps.InteriorNeighbours | src/xGadgetron/cGadgetron/gadgetron_data_containers.cpp:2906-2910 | the four in-plane neighbours max_diff_ reads around an interior voxel lie inside the volume |
| CoilMaps.NoiseLevelUnique | src/xGadgetron/cGadgetron/gadgetron_data_containers.cpp:2896-2920 | at most one value satisfies IsNoiseLevel, so MaxDiff's contract fixes its result |
| CoilMaps.MaxDiff | src/xGadgetron/cGadgetron/gadgetron_data_containers.cpp:2896-2920 | max_diff_ returns the largest \|u - w\| over interior voxels whose central-difference gradient in u is at most the threshold, or 0 when none exceeds 0 |
| CoilMaps.MaxDiffRow | src/xGadgetron/cGadgetron/gadgetron_data_containers.cpp:2907-2915 | the x loop of one interior row extends the noise estimate over that row |
| CoilMaps.MaxDiffVoxel | src/xGadgetron/cGadgetron/gadgetron_data_containers.cpp:2908-2914 | one interior voxel raises the estimate exactly when it is quiet and differs by more than the estimate so far |
| CoilMaps.Smoothed | src/xGadgetron/cGadgetron/gadgetron_data_containers.cpp:2840-2879 | a smoothing pass keeps the number of samples |
| CoilMaps.SmoothedAt | src/xGadgetron/cGadgetron/gadgetron_data_containers.cpp:2848-2877 | the pass read at a voxel is that voxel's smoothed sample |
| CoilMaps.RowAccStep | src/xGadgetron/cGadgetron/gadgetron_data_containers.cpp:2860-2871 | one more offset of a window row adds its contribution to the running count and sum |
| CoilMaps.NeighbourAt | src/xGadgetron/cGadgetron/gadgetron_data_containers.cpp:2861-2871 | the body of the neighbour loop adds exactly that offset's contribution: none when the neighbour leaves the plane, is the voxel itself or is masked out |
| CoilMaps.SmoothedStep | src/xGadgetron/cGadgetron/gadgetron_data_containers.cpp:2851-2877 | storing the current voxel's smoothed sample extends the smoothed part by one voxel |
| CoilMaps.AllSmoothed | src/xGadgetron/cGadgetron/gadgetron_data_containers.cpp:2848-2877 | after the last channel every sample of v is smoothed |
| CoilMaps.Smoothen | src/xGadgetron/cGadgetron/gadgetron_data_containers.cpp:2840-2879 | u becomes the smoothed pass of its old samples, computed from the old samples only, and v holds the same |
| CoilMaps.SmoothKeepsConstant | src/xGadgetron/cGadgetron/gadgetron_data_containers.cpp:2840-2879 | a constant image is left as it is by a smoothing pass, with or without a mask |
| CoilMaps.AverageOfEqual | src/xGadgetron/cGadgetron/gadgetron_data_containers.cpp:2874 | a sample averaged with the mean of n copies of itself is unchanged |
| CoilMaps.SmoothKeepsMasked | src/xGadgetron/cGadgetron/gadgetron_data_containers.cpp:2852-2855 | a voxel outside the object mask keeps its sample |
| CoilMaps.SmoothAveragesNeighbours | src/xGadgetron/cGadgetron/gadgetron_data_containers.cpp:2856-2876 | an unmasked voxel with neighbours in its window becomes the average of its sample and their mean; one without keeps its sample |
| CoilMaps.Channels | src/xGadgetron/cGadgetron/gadgetron_data_containers.cpp:2772-2775 | the samples of one voxel position, one per channel |
| CoilMaps.RootSumSquares | src/xGadgetron/cGadgetron/gadgetron_data_containers.cpp:2768-2779 | one combined magnitude per voxel position |
| CoilMaps.RootSumSquaresAt | src/xGadgetron/cGadgetron/gadgetron_data_containers.cpp:2768-2779 | the combined image at a voxel is the square root of the sum of the squared channel magnitudes there |
| CoilMaps.ChannelSumSquares | src/xGadgetron/cGadgetron/gadgetron_data_containers.cpp:2771-2775 | the channel loop returns the sum of the squared magnitudes of the voxel's channel samples |
| CoilMaps.ChannelStep | src/xGadgetron/cGadgetron/gadgetron_data_containers.cpp:2772-2775 | one more channel adds its squared magnitude |
| CoilMaps.CombineChannels | src/xGadgetron/cGadgetron/gadgetron_data_containers.cpp:2768-2779 | img's first nx·ny·nz entries become the root sum of squares of u, the rest untouched |
| CoilMaps.CombineSlice | src/xGadgetron/cGadgetron/gadgetron_data_containers.cpp:2769-2778 | the y loop fills one slice |
| CoilMaps.CombineRow | src/xGadgetron/cGadgetron/gadgetron_data_containers.cpp:2770-2777 | the x loop fills one row |
| CoilMaps.CombinedAll | src/xGadgetron/cGadgetron/gadgetron_data_containers.cpp:2768-2779 | after every slice, img holds the root sum of squares |
| CoilMaps.CombinedStep | src/xGadgetron/cGadgetron/gadgetron_data_containers.cpp:2776 | storing the current voxel's magnitude extends the filled part by one voxel |
| CoilMaps.CropColumnInRange | src/xGadgetron/cGadgetron/gadgetron_data_containers.cpp:2754 | every cropped column lies in the readout, and it is the centred column x + (readout - nx)/2 unless the readout exceeds 65536 columns and the 16-bit index wraps |
| CoilMaps.Cropped | src/xGadgetron/cGadgetron/gadgetron_data_containers.cpp:2750-2759 | the cropped images have the cropped extent's size |
| CoilMaps.CroppedAt | src/xGadgetron/cGadgetron/gadgetron_data_containers.cpp:2755 | a cropped sample is the uncropped sample at the cropped column |
| CoilMaps.CropIdentity | src/xGadgetron/cGadgetron/gadgetron_data_containers.cpp:2750-2759 | with no extra readout samples and fewer than 65536 columns, cropping changes nothing |
| CoilMaps.Crop | src/xGadgetron/cGadgetron/gadgetron_data_containers.cpp:2750-2759 | cm0 becomes Cropped(cm) |
| CoilMaps.CropRow | src/xGadgetron/cGadgetron/gadgetron_data_containers.cpp:2753-2756 | the x loop copies one row |
| CoilMaps.CroppedStep | src/xGadgetron/cGadgetron/gadgetron_data_containers.cpp:2755 | storing the current cropped sample extends the copied part by one voxel |
| CoilMaps.Normalised | src/xGadgetron/cGadgetron/gadgetron_data_containers.cpp:2806-2821 | one sensitivity per sample of the cropped extent |
| CoilMaps.NormalisedPos | src/xGadgetron/cGadgetron/gadgetron_data_containers.cpp:2816-2818 | the normalised sample at a voxel is its sample times the scale of its voxel position |
| CoilMaps.Placed | src/xGadgetron/cGadgetron/gadgetron_data_containers.cpp:2817 | the csm array keeps its size |
| CoilMaps.PlacedAt | src/xGadgetron/cGadgetron/gadgetron_data_containers.cpp:2817 | columns below nx hold the normalised samples and the columns past them keep their old samples |
| CoilMaps.PlacedUncropped | src/xGadgetron/cGadgetron/gadgetron_data_containers.cpp:2806-2821 | when the readout is not cropped, the csm array is exactly the normalised images |
| CoilMaps.Normalise | src/xGadgetron/cGadgetron/gadgetron_data_containers.cpp:2806-2821 | csm becomes the normalised images placed over its old contents |
| CoilMaps.NormaliseSlice | src/xGadgetron/cGadgetron/gadgetron_data_containers.cpp:2807-2820 | the y loop normalises one slice |
| CoilMaps.NormaliseRow | src/xGadgetron/cGadgetron/gadgetron_data_containers.cpp:2808-2819 | the x loop normalises one row |
| CoilMaps.NormaliseVoxel | src/xGadgetron/cGadgetron/gadgetron_data_containers.cpp:2816-2818 | the channel loop scales every channel of one voxel position |
| CoilMaps.NormalisedAll | src/xGadgetron/cGadgetron/gadgetron_data_containers.cpp:2806-2821 | after every slice the whole map holds the placed normalised samples |
| CoilMaps.ChannelsScaledStep | src/xGadgetron/cGadgetron/gadgetron_data_containers.cpp:2817 | writing one channel extends the scaled channels by one |
| CoilMaps.NormalisedStep | src/xGadgetron/cGadgetron/gadgetron_data_containers.cpp:2808-2819 | one voxel position extends the normalised part by one position |
| CoilMaps.MaxAbsPrefix | src/xGadgetron/cGadgetron/gadgetron_data_containers.cpp:2881-2894 | MaxAbs looks at its first n entries only |
| CoilMaps.NoiseLevelWithoutColumns | src/xGadgetron/cGadgetron/gadgetron_data_containers.cpp:2782-2786 | without columns no voxel is interior and the noise level is 0 whatever the threshold, so the division by nx + ny = 0 has no effect |
| CoilMaps.Rounds | src/xGadgetron/cGadgetron/gadgetron_data_containers.cpp:2789 | a loop running while its counter is below k runs max(k, 0) times |
| CoilMaps.SmoothedTimes | src/xGadgetron/cGadgetron/gadgetron_data_containers.cpp:2783-2791 | repeated smoothing keeps the number of samples |
| CoilMaps.SmoothedTimesKeepsConstant | src/xGadgetron/cGadgetron/gadgetron_data_containers.cpp:2789-2791 | repeated smoothing keeps a constant image constant |
| CoilMaps.SmoothedTimesKeepsMasked | src/xGadgetron/cGadgetron/gadgetron_data_containers.cpp:2789-2791 | repeated masked smoothing leaves the samples of a masked-out voxel as they were |
| CoilMaps.CalculateCsm | src/xGadgetron/cGadgetron/gadgetron_data_containers.cpp:2730-2824 | csm is the cropped coil images, smoothed csm_smoothness times inside the object mask, each channel divided by the combined magnitude; the mask holds the voxels whose combined magnitude exceeds the noise level of the cropped images against three unmasked smoothings of them, with the gradient threshold 2·max/(nx+ny); img holds the combined magnitude of the smoothed images |
| CoilMaps.SmoothRounds | src/xGadgetron/cGadgetron/gadgetron_data_containers.cpp:2789-2791 | u becomes csm_smoothness masked smoothing passes of itself |
| CoilMaps.EstimateNoise | src/xGadgetron/cGadgetron/gadgetron_data_containers.cpp:2768-2787 | img becomes the root sum of squares, the noise is the level of u against three unmasked smoothings with the threshold from img's maximum, and the mask marks the voxels above it |
| CoilMaps.SmoothThrice | src/xGadgetron/cGadgetron/gadgetron_data_containers.cpp:2783-2784 | v becomes three unmasked smoothings of itself and w holds the same |
| CoilMaps.Power | src/xGadgetron/cGadgetron/gadgetron_data_containers.cpp:2772-2775 | total power is non-negative |
| CoilMaps.ScaledBy | src/xGadgetron/cGadgetron/gadgetron_data_containers.cpp:2816-2818 | scaling keeps the number of samples |
| CoilMaps.PowerScaled | src/xGadgetron/cGadgetron/gadgetron_data_containers.cpp:2816-2818 | scaling every sample by t scales the power by t² |
| CoilMaps.SumSquaresIsPower | src/xGadgetron/cGadgetron/gadgetron_data_containers.cpp:2772-2775 | with an exact square root, the channel loop's sum of squares is the power |
| CoilMaps.MagnitudeSquared | src/xGadgetron/cGadgetron/gadgetron_data_containers.cpp:2773-2774 | with an exact square root, a squared magnitude is the power of one sample |
| CoilMaps.NormalisedChannel | src/xGadgetron/cGadgetron/gadgetron_data_containers.cpp:2816-2818 | every channel at a voxel position carries that position's scale |
| CoilMaps.CsmNormalised | src/xGadgetron/cGadgetron/gadgetron_data_containers.cpp:2793-2821 | with an exact square root, at a voxel inside the object mask with a non-zero combined magnitude, the sensitivities have total power 1 over the channels |
| CoilMaps.UnitPower | src/xGadgetron/cGadgetron/gadgetron_data_containers.cpp:2793-2821 | samples with a non-zero root sum of squares r, scaled by 1/r, have total power 1 |
| CoilMaps.CsmZeroOutsideMask | src/xGadgetron/cGadgetron/gadgetron_data_containers.cpp:2811-2818 | outside the object mask every channel of the sensitivities is 0 |
| CoilSensitivities.SameDims | src/xGadgetron/cGadgetron/include/sirf/Gadgetron/gadgetron_data_containers.h:852-858 | images with equal reported dimensions have the same extent |
| CoilSensitivities.CsmAsImage | src/xGadgetron/cGadgetron/gadgetron_data_containers.cpp:2552-2560 | the map at position i is returned exactly when it can be read and holds complex floats; a readable map of another type is refused with that error |
| CoilSensitivities.Slot | src/xGadgetron/cGadgetron/gadgetron_data_containers.cpp:2566 | the position tried at each step lies among the maps |
| CoilSensitivities.SearchFound | src/xGadgetron/cGadgetron/gadgetron_data_containers.cpp:2564-2572 | a map found is the first serving one: it sits at some step's slot and every earlier step passed over its map |
| CoilSensitivities.SearchNotFound | src/xGadgetron/cGadgetron/gadgetron_data_containers.cpp:2564-2574 | the search throws NotFound exactly when every remaining step passes over its map |
| CoilSensitivities.SearchIgnoresContrast | src/xGadgetron/cGadgetron/gadgetron_data_containers.cpp:2570 | the search never looks at the tag's contrast: a map serves a tag when its slice matches and its own contrast is 0 |
| CoilSensitivities.SlotNoWrap | src/xGadgetron/cGadgetron/gadgetron_data_containers.cpp:2566 | from an offset leaving room for the n steps, step i tries position (offset + i) mod n |
| CoilSensitivities.SlotsCover | src/xGadgetron/cGadgetron/gadgetron_data_containers.cpp:2564-2566 | from such an offset every position is tried at some step |
| CoilSensitivities.CoilmapNotFoundIff | src/xGadgetron/cGadgetron/gadgetron_data_containers.cpp:2562-2575 | from such an offset the lookup throws NotFound exactly when every map can be read, is complex-float and serves another slice or a non-zero contrast |
| CoilSensitivities.SpreadData | src/xGadgetron/cGadgetron/gadgetron_data_containers.cpp:2614-2622 | forward's samples number as many as the map's |
| CoilSensitivities.Spread | src/xGadgetron/cGadgetron/gadgetron_data_containers.cpp:2598-2622 | the spread image exists exactly when the map is consistent, on the image's grid and the image holds a channel's samples; it then has the image's header with the map's channel count, and keeps the image's tag |
| CoilSensitivities.SpreadAtVoxel | src/xGadgetron/cGadgetron/gadgetron_data_containers.cpp:2619-2621 | sample (x, y, z, c) of forward's image is voxel (x, y, z) of the combined image times the map's sample (x, y, z, c) |
| CoilSensitivities.SpreadChannel | src/xGadgetron/cGadgetron/gadgetron_data_containers.cpp:2615-2622 | the loops of one channel fill that channel with forward's samples |
| CoilSensitivities.SpreadImage | src/xGadgetron/cGadgetron/gadgetron_data_containers.cpp:2603-2622 | the image built is Spread's |
| CoilSensitivities.ChannelSamples | src/xGadgetron/cGadgetron/gadgetron_data_containers.cpp:2690-2694 | the samples of one voxel across the channels, one per channel |
| CoilSensitivities.ChannelSumIsSum | src/xGadgetron/cGadgetron/gadgetron_data_containers.cpp:2690-2694 | the channel sum of a voxel is the sum of its channel samples |
| CoilSensitivities.Products | src/xGadgetron/cGadgetron/gadgetron_data_containers.cpp:2681-2688 | conj(map)·image has one sample per map sample |
| CoilSensitivities.CombinedData | src/xGadgetron/cGadgetron/gadgetron_data_containers.cpp:2677-2694 | backward's data has one voxel per voxel of one channel |
| CoilSensitivities.Combined | src/xGadgetron/cGadgetron/gadgetron_data_containers.cpp:2660-2694 | the combined image exists exactly when image and map are consistent and have the same dimensions; it has the image's header with one channel and one sample per voxel |
| CoilSensitivities.ChannelsAsSamples | src/xGadgetron/cGadgetron/gadgetron_data_containers.cpp:2690-2694 | the channels of a voxel in storage order are its channel samples |
| CoilSensitivities.CombinedAtVoxel | src/xGadgetron/cGadgetron/gadgetron_data_containers.cpp:2677-2694 | voxel (x, y, z) of backward's image is the sum over the channels of conj(map)·image there |
| CoilSensitivities.AddChannel | src/xGadgetron/cGadgetron/gadgetron_data_containers.cpp:2691-2694 | the loops of one channel add that channel's product to every voxel |
| CoilSensitivities.ConjugateAll | src/xGadgetron/cGadgetron/gadgetron_data_containers.cpp:2681-2682 | every sample of the map copy is conjugated in place |
| CoilSensitivities.MultiplyAll | src/xGadgetron/cGadgetron/gadgetron_data_containers.cpp:2686-2688 | every conjugated sample is multiplied by the image's sample at the same position |
| CoilSensitivities.CombineImage | src/xGadgetron/cGadgetron/gadgetron_data_containers.cpp:2671-2694 | the image built is Combined's |
| CoilSensitivities.ProductsOf | src/xGadgetron/cGadgetron/gadgetron_data_containers.cpp:2681-2688 | a fresh array holding conj(map)·image sample by sample |
| CoilSensitivities.SumChannels | src/xGadgetron/cGadgetron/gadgetron_data_containers.cpp:2677-2694 | a fresh array that, after zero-filling and the channel loops, holds at each voxel the sum over the channels |
| CoilSensitivities.Reweighted | src/xGadgetron/cGadgetron/gadgetron_data_containers.cpp:2619-2688 | conj(b)·(a·b) for every map sample b |
| CoilSensitivities.ConjScaled | src/xGadgetron/cGadgetron/gadgetron_data_containers.cpp:2619-2688 | conj(b)·(a·b) is a·\|b\|² |
| CoilSensitivities.SumReweighted | src/xGadgetron/cGadgetron/gadgetron_data_containers.cpp:2619-2694 | summing conj(m)·(a·m) over the channels gives a times the maps' power |
| CoilSensitivities.CombineAfterSpread | src/xGadgetron/cGadgetron/gadgetron_data_containers.cpp:2594-2698 | backward after forward returns every voxel multiplied by the sum over the channels of \|map\|², and unchanged where that sum is 1 |
| CoilSensitivities.SpreadThenCombineAt | src/xGadgetron/cGadgetron/gadgetron_data_containers.cpp:2594-2698 | one voxel of backward after forward is the sum over the channels of conj(m)·(s·m) |
| CoilSensitivities.ForwardSteps | src/xGadgetron/cGadgetron/gadgetron_data_containers.cpp:2596-2625 | forward's images, the k-th spread with the map its tag finds from offset k |
| CoilSensitivities.BackwardSteps | src/xGadgetron/cGadgetron/gadgetron_data_containers.cpp:2650-2697 | backward's images, the k-th combined with the map its tag finds from offset k when that map has image 0's dimensions |
| CoilSensitivities.ForwardRefusesIff | src/xGadgetron/cGadgetron/gadgetron_data_containers.cpp:2579-2586 | forward throws before touching the output exactly when the counts differ, the combined container is empty, or its image 0 has more than one channel |
| CoilSensitivities.ForwardOutput | src/xGadgetron/cGadgetron/gadgetron_data_containers.cpp:2588-2625 | once forward passes its checks, output image k is the k-th spread image; it throws only at the first image that cannot be spread, and otherwise holds one image per combined image |
| CoilSensitivities.BackwardRefusesIff | src/xGadgetron/cGadgetron/gadgetron_data_containers.cpp:2631-2636 | backward throws before touching the output exactly when the counts differ or the container is empty |
| CoilSensitivities.BackwardOutput | src/xGadgetron/cGadgetron/gadgetron_data_containers.cpp:2639-2697 | once backward passes its checks, output image k is the k-th combined image, as for forward |
| CoilSensitivities.NormalisedChannels | src/xGadgetron/cGadgetron/gadgetron_data_containers.cpp:2816-2818 | the channels of a normalised voxel are its channels scaled by the voxel's factor |
| CoilSensitivities.ScaledByZero | src/xGadgetron/cGadgetron/gadgetron_data_containers.cpp:2811-2818 | scaling by zero leaves only zeros |
| CoilSensitivities.EstimateProperties | src/xGadgetron/cGadgetron/gadgetron_data_containers.cpp:2701-2824 | a calculated map is zero in every channel outside the object mask and, with an exact square root, has total power 1 over the channels of each voxel inside the mask whose smoothed root sum of squares is not zero |
| CoilSensitivities.CalculateImage | src/xGadgetron/cGadgetron/gadgetron_data_containers.cpp:2709-2726 | one coil image yields a map exactly when its data hold the samples its header announces; the map is calculate_csm's on its data, with the coil image's header |
| CoilSensitivities.CoilSensitivitiesVector.constructor | src/xGadgetron/cGadgetron/include/sirf/Gadgetron/gadgetron_data_containers.h:1444 | no maps, no permutation, smoothness 0 |
| CoilSensitivities.CoilSensitivitiesVector.SetCsmSmoothness | src/xGadgetron/cGadgetron/include/sirf/Gadgetron/gadgetron_data_containers.h:1452 | the smoothness becomes s |
| CoilSensitivities.CoilSensitivitiesVector.FindCoilmap | src/xGadgetron/cGadgetron/gadgetron_data_containers.cpp:2562-2575 | the cyclic lookup is CoilmapFor |
| CoilSensitivities.CoilSensitivitiesVector.ForwardImage | src/xGadgetron/cGadgetron/gadgetron_data_containers.cpp:2598-2624 | one step of coilchannels_from_combined_image is ForwardOne |
| CoilSensitivities.CoilSensitivitiesVector.BackwardImage | src/xGadgetron/cGadgetron/gadgetron_data_containers.cpp:2652-2696 | one step of combine_images_with_coilmaps is BackwardOne |
| CoilSensitivities.CoilSensitivitiesVector.Forward | src/xGadgetron/cGadgetron/gadgetron_data_containers.cpp:2577-2626 | on refusal the output is untouched; otherwise it takes the combined images' header and holds ForwardResult's images, with its exception |
| CoilSensitivities.CoilSensitivitiesVector.Backward | src/xGadgetron/cGadgetron/gadgetron_data_containers.cpp:2628-2698 | on refusal the output is untouched; otherwise it takes the coil images' header and holds BackwardResult's images, with its exception |
| CoilSensitivities.CoilSensitivitiesVector.Calculate | src/xGadgetron/cGadgetron/gadgetron_data_containers.cpp:2701-2728 | the maps are replaced by one map per coil image, the k-th calculated from coil image k with its header, up to the first image that cannot be read or is inconsistent, whose error is reported |
| CoilSensitivities.CoilSensitivitiesVector.CalculateFromAcquisitions | src/xGadgetron/cGadgetron/include/sirf/Gadgetron/gadgetron_data_containers.h:1455-1460 | an exception while calculating the coil images leaves the maps as they were; otherwise map k is calculated from coil image k, as far as Calculate gets |

## Left out

- Floating point: samples and magnitudes are exact reals, so no rounding happens; `std::sqrt` is a function parameter `sqrt`, and `std::abs` of a complex sample is taken as `sqrt` of its power.
- Integer widths: `int`, `unsigned` and `size_t` overflow is not modelled. The exceptions are the 16-bit crop column of `calculate_csm` (`CoilMaps.CropColumn`), the unsigned slot of the map search (`CoilSensitivities.Slot`) and the 64-bit flag word.
- Flag words are integers below 2^64, and a flag test divides and takes a remainder instead of masking bits. The ISMRMRD flag numbers and trajectory constants follow the ISMRMRD standard header, which is not part of this model.
- `ASSERT` failures are the exception `Assertion`. C++ undefined behaviour is the error `Undefined`. This covers `encoding[0]` of a header without encodings, the four-operand `xapyb` reading past `x` or `a`, an acquisition read or written at a storage position outside the acquisitions (the unchecked `acqs_[ind]`), and stepping or dereferencing past an empty image. The model does not guess what the compiled program would do there. The image container reads and writes its images with `images_.at`, so an image position outside the storage is `OutOfRange`, not `Undefined`.
- `GADGETRON_TOOLBOXES_AVAILABLE` is the boolean parameter `toolboxes`.
- The Fourier encodings are left out. Their `backward` transform is the function parameter `backward`.
- The per-image operations of `ImageWrap` are function parameters: `xapyb`, `axpby`, `binary_op`, `semibinary_op`, `unary_op`, `dot`, `sum` and `max`. Their header, `gadgetron_image_wrap.h`, is not part of this model.
- HDF5 and DICOM reading and writing are left out, including the bodies of `read`/`write`. Only the file-name dispatch of `write(filename)` is modelled.
- The ISMRMRD XML header is an abstract record holding the encodings and their limits. Its parsing and serialisation are left out. The ISMRMRD library is not part of this model: an absent optional limit is the error `AbsentValue` because ISMRMRD's `Optional::get()` throws when no value is set.
- Geometry is floating-point work with tolerances and is left out. This covers `set_up_geom_info` with `is_unit_vector` and `are_vectors_equal`, `reorient` and `GadgetronImagesVector::sort`.
- The global `Mutex` and everything concurrent are left out.
- `print_tag`, the warnings printed to `std::cout`/`std::cerr`, and other logging are left out.
- `MRAcquisitionData::get_slice_encoding_index` is outside this core and is left out.
- The group listing `group_names_sptr` and the XML version gate of `read` are HDF5 input and are left out.
- The rest of `cgadgetron.cpp` is left out: handle marshalling (`objectFromHandle`), the object factory and the Gadgetron client networking. Only the parsing loop of `cGT_setGadgetProperties` is modelled, and the loop returns its `set_property` calls in order. Exceptions that `set_property` itself might throw are not modelled.
- In-place aliasing of acquisitions is left out. The acquisition algebra reads its inputs as the values they held on entry. This matches the source only because, when an input is the output itself, that input's cursor never falls behind the output cursor and `index` is one-to-one, so no position is read after it has been written. The model does not prove this.
- In-place aliasing of images is left out. The image algebra reads its operands as the values they held on entry, which matches the source because image i of the output is written only after image i of every operand has been read.
- CoilSensitivities.Spread: an image on another grid than its map, or with fewer samples than one channel, is `Undefined`. The source reads it with the map's sizes.
- CoilSensitivities.Combined: an image or a map whose data do not match its header is `Undefined`. So is an image whose dimensions differ from its map's. The source checks each map only against image 0, so an image after image 0 can reach the loops with other dimensions than its map. When that image is at least as large as its map along every axis and in channels, the source computes a defined but misaligned result. The output is shaped like the image, and its voxels at the map's coordinates hold the channel sums of conj(map) times the image's first samples. The model does not compute this result.
- CoilSensitivities.CalculateImage: a coil image whose data do not hold the samples its header announces is `Undefined`.
- CoilMaps.CsmNormalised: the unit total power of the sensitivities is proved only for an exact square root.
- Images.ImageIterator.Begin: `begin()` of a container without images is not modelled. The constructor requires at least one image, because the source dereferences image 0.
- Images.ImageIterator.End: likewise requires at least one image.
- CoilImages.TrajectoryOf: a header without encodings is `Undefined`.
