# A verified model of the test-automation toolkit's core

This project models, in Dafny, the logic at the heart of a Python test-automation
toolkit. The logic comes in five parts:

- **The grid screenshot comparator** (`ImageComparer` in
  `tools/visual/screenshots_processing.py`). It cuts the staging screenshot into
  a 60 x 80 grid and visits the cells with a stride one pixel larger than a cell.
  For each cell it sums the channel values in both screenshots. It outlines in
  red, and counts, every cell whose production/staging ratio differs from 1 by
  more than `ACCURACY`. `divide_to_cells` draws the same kind of grid (30 x 40)
  in blue.
  - Model: the class `ScreenshotsProcessing.ImageComparer`, with loops mirroring
    the source's nested loops.
  - The loops are proved against a left-fold specification, `Compare` and
    `Annotations`.
- **The pet store service** (`server/server.py`). It has five handlers over a
  list of pets, where each pet is a JSON object found by its `"Имя"` (name)
  field.
  - Model: the class `Server.PetStore`, whose field `animals` is the data file.
  - Each handler is a method proved equal to a pure function of the old list
    and the request (`Create`, `Change`, `Delete`, `Lookup`). That function
    gives the new list and the reply.
- **The custom allure step** (`assist/allure/custom_step.py`): three pieces.
  - `_humanify` turns a function name into words.
  - `_fn_params_to_ordered_dict` collects a call's arguments into an ordered
    parameter list.
  - `CustomStepContext.__call__` composes the name under which a step is
    reported.
  - Python dicts are modelled as association lists kept in insertion order.
  - Argument values have an arbitrary type `V`. The reporting library's
    `represent`, Python's `str` and Python's truthiness are passed in as
    functions.
- **Environment selection** (`environments.py`). The command line is scanned for
  the first `--env`, and its value names the environment. The default is
  `env_main`. The name selects `./config/<name>.json`.
- **Random test strings** (`Tool.random_string` in `assist/helpers.py`). The
  result is a prefix followed by lowercased random letters and digits. Each
  random choice is a nondeterministic pick (`:|`) from the symbol set.

Shared pieces:

- `Wrappers` holds `Option` and `Result`.
- `PyStrings` models the Python `str` operations the code relies on:
  `in`, `isspace`/`strip`, `join` and `replace`.

## Model

| member | source | states |
|---|---|---|
| `ScreenshotsProcessing.BlockSize` | tools/visual/screenshots_processing.py:40-41 | A block is empty for an empty dimension. Otherwise it is at least 1 and is the ceiling of dimension / count: `(b-1)*count < dimension <= b*count`. |
| `ScreenshotsProcessing.RangeBounds` | tools/visual/screenshots_processing.py:43-44 | Every value `range(start, limit, step)` yields lies in `[start, limit)`. |
| `ScreenshotsProcessing.RangeAt` | tools/visual/screenshots_processing.py:43-44 | The i-th value of the stride is `start + i*step`. |
| `ScreenshotsProcessing.RangeLength` | tools/visual/screenshots_processing.py:43-44 | The stride has `ceil((limit-start)/step)` values, and none when `start >= limit`. |
| `ScreenshotsProcessing.RangeSpacing` | tools/visual/screenshots_processing.py:43-44 | Two values of the stride are at least one step apart. |
| `ScreenshotsProcessing.GridCellsMember` | tools/visual/screenshots_processing.py:43-44 | A cell is visited exactly when its x is a column start and its y a row start. |
| `ScreenshotsProcessing.GridInside` | tools/visual/screenshots_processing.py:43-44 | Every visited cell starts inside the image. |
| `ScreenshotsProcessing.GridSize` | tools/visual/screenshots_processing.py:43-44 | Exactly `ceil(H/(bh+1)) * ceil(W/(bw+1))` cells are visited. |
| `ScreenshotsProcessing.CellsDisjoint` | tools/visual/screenshots_processing.py:43-53 | Two different visited cells never overlap, not even their outlines with both edges included. |
| `ScreenshotsProcessing.OutlinesAt` | tools/visual/screenshots_processing.py:53 | The i-th outline drawn is the rectangle `(x, y, x+bw, y+bh)` of the i-th cell. |
| `ScreenshotsProcessing.RowOutlinesAreOutlines` | tools/visual/screenshots_processing.py:97-99 | The inner drawing loop appends the outlines of the rest of the row's cells, in order. |
| `ScreenshotsProcessing.GridOutlinesAreOutlines` | tools/visual/screenshots_processing.py:96-99 | The outer drawing loop appends the outlines of the remaining rows' cells, in order. |
| `ScreenshotsProcessing.DrawnByRows` | tools/visual/screenshots_processing.py:96-99 | Drawing row by row outlines every cell of the grid, in visiting order. |
| `ScreenshotsProcessing.ChannelSumZero` | tools/visual/screenshots_processing.py:70 | `sum(pixel)` is 0 exactly when every channel is 0. |
| `ScreenshotsProcessing.RowTotalZero` | tools/visual/screenshots_processing.py:67-70 | A row of the region sums to 0 exactly when all its pixels are black. |
| `ScreenshotsProcessing.RegionTotalZero` | tools/visual/screenshots_processing.py:63-74 | A region sums to 0 exactly when every pixel in it is black in every channel. These are the cells on which the unguarded division fails. |
| `ScreenshotsProcessing.Region` | tools/visual/screenshots_processing.py:63-74 | `process_region` gives None exactly when the rectangle does not fit in the image. |
| `ScreenshotsProcessing.MismatchedExact` | tools/visual/screenshots_processing.py:50-51 | `abs(1 - p/s) > ACCURACY` holds exactly when `|s - p| * 10000 > s`. |
| `ScreenshotsProcessing.Mismatched` | tools/visual/screenshots_processing.py:50-51 | A production sum of 0 against a non-zero staging sum always mismatches. |
| `ScreenshotsProcessing.DeviationScaled` | tools/visual/screenshots_processing.py:50-51 | `abs(1 - p/s) * s == |s - p|`. |
| `ScreenshotsProcessing.ThresholdInIntegers` | tools/visual/screenshots_processing.py:13 | Comparing with `ACCURACY * s` is comparing `n * 10000` with `s`. |
| `ScreenshotsProcessing.NotMismatchedSelf` | tools/visual/screenshots_processing.py:50-51 | Equal non-zero sums never mismatch. |
| `ScreenshotsProcessing.FlaggedMember` | tools/visual/screenshots_processing.py:51-54 | A cell is flagged exactly when it is visited and differs. |
| `ScreenshotsProcessing.ScanFromFailed` | tools/visual/screenshots_processing.py:50 | Once the division has raised, later cells change nothing. |
| `ScreenshotsProcessing.ScanFromAppend` | tools/visual/screenshots_processing.py:43-54 | Scanning two runs of cells is scanning the first, then the second. |
| `ScreenshotsProcessing.RowScanFailed` | tools/visual/screenshots_processing.py:44-54 | After a raise, the rest of the row changes nothing. |
| `ScreenshotsProcessing.RowsScanFailed` | tools/visual/screenshots_processing.py:43-54 | After a raise, the remaining rows change nothing. |
| `ScreenshotsProcessing.RowScanIsScan` | tools/visual/screenshots_processing.py:44-54 | The inner comparison loop performs the steps of the row's remaining cells, in order. |
| `ScreenshotsProcessing.RowsScanIsScan` | tools/visual/screenshots_processing.py:43-54 | The outer comparison loop performs the steps of the remaining rows' cells, in order. |
| `ScreenshotsProcessing.StepMeaning` | tools/visual/screenshots_processing.py:45-54 | One iteration raises exactly on a comparable cell with a zero staging sum. It outlines the cell exactly when the cell differs. A cell with a None region is skipped. |
| `ScreenshotsProcessing.ScanFails` | tools/visual/screenshots_processing.py:43-54 | A scan fails exactly when one of its cells divides by zero. |
| `ScreenshotsProcessing.ScanOutlines` | tools/visual/screenshots_processing.py:43-54 | A scan that does not fail appends the outlines of exactly the differing cells, in order. |
| `ScreenshotsProcessing.CompareByRows` | tools/visual/screenshots_processing.py:43-55 | The result and outlines read off the row-by-row loops equal `Compare` and `Annotations`. |
| `ScreenshotsProcessing.Compare` | tools/visual/screenshots_processing.py:32-55 | A count returned is the number of outlines drawn, and at most the number of grid cells visited. |
| `ScreenshotsProcessing.Annotations` | tools/visual/screenshots_processing.py:32-55 | An image compared with itself gets no red outline. |
| `ScreenshotsProcessing.ScanSelf` | tools/visual/screenshots_processing.py:43-54 | Scanning an image against itself never adds an outline, whatever the starting progress. |
| `ScreenshotsProcessing.CompareMeaning` | tools/visual/screenshots_processing.py:32-55 | The comparison raises exactly when a visited comparable cell has a zero staging sum. Otherwise it returns the number of differing cells, at most the number of cells visited, and outlines exactly those cells in visiting order. |
| `ScreenshotsProcessing.FlaggedSelf` | tools/visual/screenshots_processing.py:51 | No cell of an image differs from itself. |
| `ScreenshotsProcessing.CompareSelf` | tools/visual/screenshots_processing.py:32-55 | Comparing an image with itself returns 0 and draws nothing, provided no in-bounds visited cell is completely black. |
| `ScreenshotsProcessing.ImageComparer.constructor` | tools/visual/screenshots_processing.py:15-18 | A new comparer holds no screenshots and an undrawn result. |
| `ScreenshotsProcessing.ImageComparer.ProcessRegion` | tools/visual/screenshots_processing.py:63-74 | Returns the channel total of the rectangle, or None when a pixel of it lies outside the image. |
| `ScreenshotsProcessing.ImageComparer.ComparePictures` | tools/visual/screenshots_processing.py:32-55 | Stores both screenshots and returns `Compare`. The result image gains exactly the outlines `Annotations`; the screenshots are only read. |
| `ScreenshotsProcessing.ImageComparer.DivideToCells` | tools/visual/screenshots_processing.py:87-99 | Returns the outlines of every cell of the 30 x 40 grid, in drawing order. |
| `Server.PyEqString` | server/server.py:44 | Python `==` against a string is plain equality (no `True == 1` coercion). |
| `Server.PyEq` | server/server.py:44 | Python `==` on JSON values holds between equal values. |
| `Server.PyEqNumbers` | server/server.py:44 | Numbers and booleans compare by value, so `True == 1` and `False == 0` hold and `True == 2` does not. |
| `Server.Truthy` | server/server.py:60-61 | A JSON value is falsy exactly when it is null, false, 0, an empty string, an empty list or an empty object. |
| `Server.Contains` | server/server.py:65-66 | `field in body` is key membership for an object and substring search for a string, and it raises exactly when the body is a number, a boolean or null. |
| `Server.Lookup` | server/server.py:39-46 | Answers 200 exactly when the search finds a pet, with that first match. It answers 404 exactly when every pet has a different name, and 500 otherwise (a pet without `"Имя"` reached before any match). |
| `Server.NameOf` | server/server.py:44 | `pet["Имя"]` succeeds exactly for an object that has the key. |
| `Server.FindFrom` | server/server.py:43-46 | The search finds the first matching pet. It reports absence exactly when every remaining pet has a name that differs, and raises only at a pet without a name. |
| `Server.MissingFrom` | server/server.py:64-67 | All required fields are present exactly when each `in` test succeeds. A reported missing field is one of the required ones. |
| `Server.Create` | server/server.py:60-77 | Answers 201, 400 or 500. A missing or falsy body gets 400 "Нет данных в запросе". 201 holds exactly for a truthy body with every required field whose name no pet has; 500 holds exactly when an `in` test raises or a pet without a name is met first. On 201 the body is appended at the end and returned; otherwise the list is unchanged. |
| `Server.Update` | server/server.py:94 | For an object body, the body's keys overwrite or join the pet's keys, and every other key keeps its value. A list body succeeds exactly when every element is a pair. Any other body raises. |
| `Server.Pair` | server/server.py:94 | A list element is accepted as a pair exactly when it is a two-element list keyed by a string, or a two-character string. |
| `Server.UpdatePairs` | server/server.py:94 | `update` with a list fails exactly when some element is not a pair. Otherwise the pet gains exactly the pairs' keys, the last pair sets its key, and every key no pair names keeps its value. |
| `Server.UpdatePairsAppend` | server/server.py:94 | The list is read left to right: updating with `a + b` is updating with `a` and then with `b`, and a failure in `a` stops it. |

| `Server.Change` | server/server.py:87-99 | Answers 200, 400, 404 or 500, and only 200 changes the list. A missing or falsy body gets 400 "Нет данных для обновления". 404 holds exactly for a truthy body when every pet has another name; 200 exactly when a pet is found and the update applies. 500 exactly for a truthy body when a pet without a name is met first, or the update of the found pet raises. On 200 only the first pet with that name is replaced by its update. |
| `Server.Delete` | server/server.py:105-111 | Answers 200, 404 or 500. 200 holds exactly when the search finds a pet, 404 exactly when every pet has a different name, and 500 exactly when a pet without a name is met first. On 200 the first match is cut out and returned. |
| `Server.CreateNamesFirstMissing` | server/server.py:64-67 | A body lacking a required field gets 400 naming the first missing one in the order Животное, Имя, Возраст, Цвет глаз, Есть ли дети. The list is unchanged. |
| `Server.CreateRefusesDuplicate` | server/server.py:69-73 | A name already in the list gets 400 and the list is unchanged. |
| `Server.CreateKeepsNamesUnique` | server/server.py:70-75 | A successful creation keeps the names pairwise different. |
| `Server.CreateThenLookupAndDelete` | server/server.py:39-111 | Round trip: after creating a pet with a string name, looking it up returns it with 200, and deleting it returns it and restores the previous list. |
| `Server.RenameCanDuplicate` | server/server.py:91-97 | Uniqueness is not re-checked on change: a rename can create a duplicate name. |
| `Server.ChangeTouchesOnlyFirstMatch` | server/server.py:92-97 | A successful change leaves every other pet as it was. |
| `Server.DeleteKeepsOthers` | server/server.py:106-110 | Deleting keeps the other pets in their order. |
| `Server.DeleteKeepsNamesUnique` | server/server.py:106-110 | Deleting keeps every pet named and the names different. |
| `Server.DeleteRemovesName` | server/server.py:102-111 | With unique names, the deleted name is afterwards answered with 404. |
| `Server.PetStore.constructor` | server/server.py:15-17 | The data file starts as an empty list. |
| `Server.PetStore.GetAll` | server/server.py:32-36 | Returns the whole list in stored order with 200. |
| `Server.PetStore.GetName` | server/server.py:39-46 | Returns what `Lookup` specifies and leaves the list unchanged: the first pet with that name with 200, 404 when every pet has another name, and 500 when a pet without `"Имя"` comes before any match. |
| `Server.PetStore.CreatePet` | server/server.py:49-77 | The new list and reply are what `Create` specifies for the old list. |
| `Server.PetStore.ChangePet` | server/server.py:80-99 | The new list and reply are what `Change` specifies for the old list. |
| `Server.PetStore.DeletePet` | server/server.py:102-111 | The new list and reply are what `Delete` specifies for the old list. |
| `PyStrings.StripLeft` | assist/allure/custom_step.py:10 | The result is a suffix, everything removed is whitespace, and it does not start with whitespace. |
| `PyStrings.StripRight` | assist/allure/custom_step.py:10 | The result is a prefix, everything removed is whitespace, and it does not end with whitespace. |
| `PyStrings.IsSpace` | assist/allure/custom_step.py:10 | Blank, tab, newline and carriage return are whitespace; `_`, letters and digits never are. |
| `PyStrings.Strip` | assist/allure/custom_step.py:10 | The result is the slice of the input between its leading and its trailing whitespace: everything before and after it is whitespace, and it neither starts nor ends with whitespace. |
| `PyStrings.StripIdle` | assist/allure/custom_step.py:10 | A string without surrounding whitespace is left as it is. |
| `PyStrings.StripIdempotent` | assist/allure/custom_step.py:10 | Stripping twice is stripping once. |
| `PyStrings.Join` | assist/allure/custom_step.py:104-108 | The join starts with the first part. |
| `PyStrings.JoinAppend` | assist/allure/custom_step.py:104-108 | Joining one more part appends the separator and then the part. |
| `PyStrings.JoinEmpty` | assist/allure/custom_step.py:104-113 | A join is empty exactly when every part is empty and no non-empty separator stands between two parts. |
| `PyStrings.Interleave` | assist/allure/custom_step.py:116 | `s.replace("", r)` has length `|s| + (|s|+1)*|r|`. |
| `PyStrings.InterleaveEmpty` | assist/allure/custom_step.py:116 | Interleaving the empty string changes nothing. |
| `PyStrings.ReplaceLength` | assist/allure/custom_step.py:116 | `replace` with a replacement as long as its target keeps the length; a shorter one for a non-empty target never lengthens the string. |
| `PyStrings.ReplaceAll` | assist/allure/custom_step.py:116 | A string shorter than a non-empty target is left unchanged. |
| `PyStrings.ReplaceSame` | assist/allure/custom_step.py:116 | Replacing a string by itself changes nothing, for every target including the empty one. |
| `PyStrings.ReplaceAbsent` | assist/allure/custom_step.py:116 | A non-empty target that does not occur is not replaced. |
| `CustomStep.SkipRun` | assist/allure/custom_step.py:10 | Dropping a leading underscore run leaves a string that does not start with `_`, is shorter when there was a run, and holds only characters of the input. |
| `CustomStep.Collapse` | assist/allure/custom_step.py:10 | `re.sub(r'_+', ' ', s)` leaves no underscore, never lengthens the string, and adds no character but the blank. |
| `CustomStep.Humanify` | assist/allure/custom_step.py:9-10 | The result holds no underscore, has no surrounding whitespace, and holds only characters of the input and blanks. A name without underscores is only stripped. |
| `CustomStep.CollapseWithoutUnderscores` | assist/allure/custom_step.py:10 | Without underscores the substitution changes nothing. |
| `CustomStep.HumanifyIdempotent` | assist/allure/custom_step.py:9-10 | Applying `_humanify` twice gives what applying it once gives. |
| `CustomStep.CollapseAppend` | assist/allure/custom_step.py:10 | Runs never reach across a boundary that follows a non-underscore: the substitution distributes over such a concatenation. |
| `CustomStep.CollapseRun` | assist/allure/custom_step.py:10 | A maximal run of n >= 1 underscores becomes exactly one space. |
| `CustomStep.Keys` | assist/allure/custom_step.py:34-40 | A dict's keys, one per entry, in insertion order. |
| `CustomStep.Get` | assist/allure/custom_step.py:93 | `d.get(k)` finds a value exactly when `k` is a key. |
| `CustomStep.Put` | assist/allure/custom_step.py:34-40 | Assigning keeps an existing key in its place and appends a new one. |
| `CustomStep.FromPairs` | assist/allure/custom_step.py:17 | `dict(pairs)` holds no key twice. |
| `CustomStep.Remove` | assist/allure/custom_step.py:18-19 | After `pop(k, None)` the key is gone, and no key was added. |
| `CustomStep.Positional` | assist/allure/custom_step.py:16-19 | The positional dict holds only parameter names, and never a leading `self` or `cls`. |
| `CustomStep.DefaultsAsWritten` | assist/allure/custom_step.py:21-23 | As written, the defaults dict holds distinct names, all of them among the names not given positionally. |
| `CustomStep.VarargsDict` | assist/allure/custom_step.py:25-26 | The `*args` entry exists exactly when the function has `*args` and extra positional arguments came. It maps that name to the tuple of the extras. |
| `CustomStep.Order` | assist/allure/custom_step.py:27-32 | The order lists exactly the positional names, the keyword-only names, and the `*args` name when extras came. |

| `CustomStep.Zip` | assist/allure/custom_step.py:17 | `zip` pairs the i-th name with the i-th value, up to the shorter sequence. |
| `CustomStep.GetPut` | assist/allure/custom_step.py:34-40 | After `d[k] = v`, `k` gives `v` and every other key gives what it gave. |
| `CustomStep.KeysUnion` | assist/allure/custom_step.py:34-40 | `{**d, **e}` holds exactly the keys of both. |
| `CustomStep.DistinctUnion` | assist/allure/custom_step.py:34-40 | Merging keeps keys distinct. |
| `CustomStep.GetUnion` | assist/allure/custom_step.py:34-40 | Later entries win: a key of `e` takes its value from `e`, and any other key keeps its value in `d`. |
| `CustomStep.GetRemove` | assist/allure/custom_step.py:18-19 | Popping one key leaves the others' values. |
| `CustomStep.GetZipped` | assist/allure/custom_step.py:17 | `dict(zip(names, values))` maps the t-th distinct name to the t-th value. |
| `CustomStep.KeysZipped` | assist/allure/custom_step.py:23 | Every key of a zipped dict is one of the names. |
| `CustomStep.IndexOf` | assist/allure/custom_step.py:44 | `order.index(k)` is the first position of `k`. |
| `CustomStep.IndexOfFirst` | assist/allure/custom_step.py:44 | A position with no earlier occurrence is the index. |
| `CustomStep.Outside` | assist/allure/custom_step.py:44 | Finds a key the order does not list exactly when one exists. |
| `CustomStep.ArrangeKeys` | assist/allure/custom_step.py:42-48 | The arranged keys are the dict's keys listed at or after the position, except `element`. |
| `CustomStep.ArrangeSorted` | assist/allure/custom_step.py:42-45 | The arranged keys stand in strictly increasing order of their index. |
| `CustomStep.ArrangeValues` | assist/allure/custom_step.py:43 | Each arranged value is `represent` of the key's merged value. |
| `CustomStep.SortedEntry` | assist/allure/custom_step.py:42-48 | Every merged key other than `element` is shown with its represented value. |
| `CustomStep.SortedFails` | assist/allure/custom_step.py:42-45 | Sorting raises exactly when some merged key is missing from the order. |
| `CustomStep.SortedKeys` | assist/allure/custom_step.py:42-48 | The result holds every merged key except `element`, and nothing else. |
| `CustomStep.SortedOrder` | assist/allure/custom_step.py:42-50 | The result is ordered by index in the order and holds no key twice. |
| `CustomStep.Sorted` | assist/allure/custom_step.py:42-48 | An error names a merged key that the order does not list. |
| `CustomStep.SortedValues` | assist/allure/custom_step.py:43 | Every shown value is `represent` of the merged value. |
| `CustomStep.MergePrecedence` | assist/allure/custom_step.py:34-40 | Keyword arguments override keyword-only defaults, which override `*args`, which overrides positional defaults, which override positional values. |
| `CustomStep.GetEarly` | assist/allure/custom_step.py:34-37 | Among the positional sources, `*args` overrides defaults, which override positional values. |
| `CustomStep.GetLate` | assist/allure/custom_step.py:38-39 | A name no keyword source holds keeps its positional value. |
| `CustomStep.KeysMerge` | assist/allure/custom_step.py:34-40 | The merge holds exactly the keys of the five sources. |
| `CustomStep.Merge` | assist/allure/custom_step.py:34-40 | Every keyword argument is among the merged keys. |
| `CustomStep.KeysRemove` | assist/allure/custom_step.py:19 | Popping adds no key. |
| `CustomStep.MergedInOrder` | assist/allure/custom_step.py:27-40 | Every merged name that no keyword source brought is in the order. |
| `CustomStep.AsWrittenArePositional` | assist/allure/custom_step.py:22-23 | As written, defaults are bound only to positional names. |
| `CustomStep.IntendedArePositional` | assist/allure/custom_step.py:22-23 | Under Python's binding, defaults are bound only to positional names. |
| `CustomStep.MergeSorts` | assist/allure/custom_step.py:29-45 | With defaults on positional names, the merge sorts whenever every keyword argument is in the order. |
| `CustomStep.ParamsFailOnlyOnStrayKeyword` | assist/allure/custom_step.py:29-45 | Ordering succeeds exactly when every keyword argument names a parameter, in both readings of the defaults. |
| `CustomStep.Params` | assist/allure/custom_step.py:13-50 | As written: the result holds no `element` and no name twice; an error names a key that is not a parameter. |
| `CustomStep.ParamsIntended` | assist/allure/custom_step.py:13-50 | The same, with defaults bound as Python binds them. |
| `CustomStep.NotMerged` | assist/allure/custom_step.py:34-40 | A name none of the five sources holds is not merged. |
| `CustomStep.DefaultsSkipGiven` | assist/allure/custom_step.py:21-23 | A parameter given positionally gets no default, in both readings. |
| `CustomStep.SelfHidden` | assist/allure/custom_step.py:17-19 | A positionally bound `self` or `cls` is not shown unless a keyword source names it again. |
| `CustomStep.VarargsOnlyWhenExtra` | assist/allure/custom_step.py:25-27 | `*args` is merged, and joins the order, exactly when the function has one and extra positional arguments came. |
| `CustomStep.VarargsShown` | assist/allure/custom_step.py:25-27 | The extra positional arguments are shown as one tuple under the `*args` name, as written and under Python's binding of defaults. |
| `CustomStep.DefaultsShifted` | assist/allure/custom_step.py:21-23 | Counterexample: `def f(a, b=d1, c=d2)` called as `f(x, y)` shows `c = d1` as written, while Python binds `c = d2`. |
| `CustomStep.DefaultsAsWrittenBind` | assist/allure/custom_step.py:21-23 | As written, the j-th name not given positionally takes `defaults[j - len(args)]`. |
| `CustomStep.DefaultReachesStep` | assist/allure/custom_step.py:34-48 | A default no later source overrides is what the step shows for that name. |
| `CustomStep.DefaultsIntendedBind` | assist/allure/custom_step.py:21-23 | Under Python's binding, each defaulted parameter not given positionally gets its own default, `defaults[j - (len(spec.args) - len(defaults))]`. |
| `CustomStep.DefaultShown` | assist/allure/custom_step.py:21-23 | Under Python's binding, such a parameter is shown with its own default, unless a keyword names it. |
| `CustomStep.DefaultShownAsWritten` | assist/allure/custom_step.py:21-23 | As written, it is shown with the default counted from the first unset name. |
| `CustomStep.DefaultsAgree` | assist/allure/custom_step.py:21-23 | The two readings agree when exactly the parameters without a default were given positionally. |
| `CustomStep.StepTitle` | assist/allure/custom_step.py:93-97 | A truthy `name` keyword yields `<title> "<name>"`, with an absent title printed as `None`. Otherwise the title is kept as declared. |
| `CustomStep.Derepresent` | assist/allure/custom_step.py:101-102 | `s[1:-1]` is two characters shorter, or empty. |
| `CustomStep.DerepresentQuoted` | assist/allure/custom_step.py:101-102 | Dropping the quotes around a quoted string gives the string back. |
| `CustomStep.ShownValues` | assist/allure/custom_step.py:104-108 | One shown value per parameter, in order, derepresented exactly when the step asks for it. |
| `CustomStep.Heading` | assist/allure/custom_step.py:110-111 | A non-empty title is shown as it is. Otherwise the heading is the function name in words, without underscores or surrounding whitespace. |
| `CustomStep.Compose` | assist/allure/custom_step.py:110-113 | The reported name starts with the title, or with the humanified function name when the title is missing or empty. |
| `CustomStep.ComposeShowsParams` | assist/allure/custom_step.py:104-113 | `: ` and the parameters follow the title exactly when the joined parameter string is not empty. |
| `CustomStep.Step` | assist/allure/custom_step.py:127-128 | `step(title)` keeps the title, separates parameters with `, `, does not derepresent, and translates nothing. |
| `CustomStep.StepName` | assist/allure/custom_step.py:87-121 | A keyword argument named `func` raises, since it collides with the first parameter of `_fn_params_to_ordered_dict` at line 99. Otherwise reporting fails exactly when the parameters, bound as written, cannot be ordered, with their error. An untranslated name starts with the heading. |
| `CustomStep.StepNameIntended` | assist/allure/custom_step.py:87-121 | The same, the `func` clash included, with the parameters bound as Python binds them. |
| `CustomStep.Translate` | assist/allure/custom_step.py:115-119 | Translations that each replace a string by one of the same length keep the length of the name. |
| `CustomStep.TranslateIdentity` | assist/allure/custom_step.py:115-119 | Translations that map a string to itself leave the name unchanged. |
| `CustomStep.TranslateAppend` | assist/allure/custom_step.py:115-119 | Translations apply left to right: the later ones see the earlier ones' result. |
| `Environments.FirstIndex` | environments.py:18-20 | `argv.index(x)` finds the first occurrence, and finds none exactly when `x` is absent. |
| `Environments.EnvName` | environments.py:15-27 | Without `--env` the name is `env_main`. Otherwise it is the element after the first `--env`, or `env_main` when `--env` comes last. |
| `Environments.ConfigPath` | environments.py:30 | The path is `./config/` followed by the name and `.json`, so the name can be read back from it. |
| `Environments.ConfigFile` | environments.py:15-30 | The configuration file read is the one of the selected environment. |
| `Environments.LaterArgumentsIgnored` | environments.py:18-23 | Only the first `--env` counts: arguments appended after it and its value change nothing. |
| `Environments.ValueTakenVerbatim` | environments.py:23 | The element after `--env` is taken even when it is itself `--env`. |
| `Environments.TrailingFlagFallsBack` | environments.py:21-27 | `--env` as the last element falls back to `env_main`. |
| `Helpers.Lower` | assist/helpers.py:25 | Lowercasing maps every symbol to a lowercase letter or digit and leaves those unchanged. |
| `Helpers.GeneratedLength` | assist/helpers.py:23-25 | 16 characters when no length is given, and `max(max_len, 0)` otherwise. |
| `Helpers.RandomString` | assist/helpers.py:20-25 | The result is the prefix exactly as given (`test-` for None, `''` kept), followed by `max(max_len, 0)` characters, each a lowercase ASCII letter or a digit. |
| `Helpers.EveryGeneratedReachable` | assist/helpers.py:20-25 | Every lowercase letter and digit can be generated. |
| `Helpers.CapitalLowered` | assist/helpers.py:25 | A picked capital letter is generated as its small letter. |

## Left out

- Browser and file work are not modelled: `compare_pages`, `take_screenshot`,
  the sleep, `save_images_for_report` and `image_to_b64`. Screenshots come in
  already decoded as pixel columns, and writing `cells.png` is left out.
- PIL drawing is not modelled. A drawn rectangle is recorded as data (`Rect`)
  rather than as pixels. `result_image` is represented by the outlines drawn
  on it, since its pixels are the staging pixels.
- `ScreenshotsProcessing.MismatchedExact`: the ratio and `ACCURACY` are exact
  rationals here. Float rounding of `production / staging` and of `0.0001`
  near the threshold is not modelled.
- `ScreenshotsProcessing.ImageComparer.ProcessRegion`: the bare `except` in the
  source catches any failure. The model's only failure is a pixel outside the
  image.
- Flask routing, `request.get_json`, `jsonify` and the JSON file read and write
  (`load_data`, `save_data`) are not modelled. The data file is the `animals`
  field. A file that does not decode as JSON, which `load_data` reads as `[]`,
  is not modelled.
- `Server.Update`: a list body whose elements Python would still accept as
  pairs is answered with 500 here. These are a two-key object, and a
  two-element list whose key is a number, a boolean or null. Python would
  update the pet with those keys. A list or object as key raises `TypeError`
  in Python too, which the 500 matches.
- JSON numbers are integers; floating-point JSON numbers are not modelled.
- The allure runtime is not modelled: the `plugin_manager` hooks in `__enter__`
  and `__exit__`, `uuid4`, and `represent`, which is a function parameter.
  `inspect.getfullargspec` is replaced by an `ArgSpec` record given directly.
- `display_params` and `display_context` are stored by `CustomStepContext` but
  never read, so they are not modelled. Calling the decorated function itself
  is not modelled.
- The random source behind `random.choice` is a nondeterministic pick.
- The configuration `json.load` and the pydantic `Environments` model are not
  modelled.

## Findings

| source | as written | input that shows it | evidently intended | confidence | as-written member | corrected member |
|---|---|---|---|---|---|---|
| assist/allure/custom_step.py:21-23 | The unset positional names are zipped with `spec.defaults` from the front. | `def f(a, b=2, c=3)` called as `f(1, 5)` is shown with `c=2`, although the call binds `c=3`. `def f(a, b=2)` called as `f(a=1)` gives the default 2 to `a`, which the keyword then overrides, so `b=2` is not shown. | Defaults belong to the last positional parameters, as Python binds them. Each parameter not given positionally shows its own default. | medium (not executed) | `CustomStep.DefaultsShifted` | `CustomStep.DefaultsIntendedBind` |
