# Learning-Swift playgrounds, modelled in Dafny

The repository holds two Swift tutorial playgrounds. `IanLearnsSwift1.playground`
targets Swift 1.2 and `IanLearnsSwift1_2.0.playground` targets Swift 2. They are
near-duplicates, and most of their lines only show syntax. This project models the
parts that compute something, as immutable datatypes and pure functions:

- `findIndexOfString`, a linear search returning `Int?`, and the optional binding that uses it (module `Search`);
- the copy loop over `array.enumerate()` (module `Search`);
- the `Address` / `Residence` / `Person` records and the optional chain
  `person.residence?.address?.buildingNumber`, continued into `Int(...)` / `toInt()`
  (modules `Optionals`, `Wrappers`, `Decimal`);
- sorting with closures: by character count in Swift 1.2, and by string order
  ascending, descending and through `backwards` in Swift 2
  (modules `Sorting`, `LexOrder`, `Counting`, `Closures`);
- `nums.reduce(0, combine: +)`, with Swift's trapping `Int` addition (module `Reduce`);
- `enum TrainStatus` and its three `switch` statements, as first-match over a
  list of case patterns (module `Trains`);
- the `Car` / `RaceCar` / `FormulaOne` initialisers, `fillGasTank` and `tuneUp` (module `Cars`).

A Swift `Int` is taken as 64-bit. String interpolation of an `Int` is `Decimal.Show`.
`Int(s)` and `s.toInt()` are both `Decimal.Parse`: an optional sign, then one or more
decimal digits, with a value that fits in `Int`. A Swift `String` is a `seq<char>`.
`count(s)` is its length, `==` compares characters one by one, and `<` on strings is plain
lexicographic order on characters.

## Model

| member | source | states |
|---|---|---|
| Search.IndexOf | IanLearnsSwift1.playground/Contents.swift:6-13 | A returned index is in bounds, holds the key, and no earlier element equals the key. The result is `nil` exactly when the key does not occur. |
| Search.FindIndexOfString | IanLearnsSwift1_2.0.playground/Contents.swift:6-13 | The loop with early `return` gives the first index holding the key, or `nil` exactly when the key is absent. It agrees with the recursive `IndexOf` on every input. |
| Search.CopyByEnumeration | IanLearnsSwift1.playground/Contents.swift:17-24 | Appending each enumerated value gives an array of the same length with the same element at every index. |
| Search.CopyExample | IanLearnsSwift1_2.0.playground/Contents.swift:17-24 | Copying `["Ian", "Ben", "Elisabeth"]` gives exactly that array. |
| Search.BindingMessage | IanLearnsSwift1_2.0.playground/Contents.swift:28-36 | The `if let` gives "nope" exactly when the index is `nil`. Otherwise the text starts with "yep, index is ", and the rest reads back as the bound index. |
| Search.BindingOfSearch | IanLearnsSwift1_2.0.playground/Contents.swift:28-36 | For every key and list, binding the search result says "nope" exactly when the key is absent. Otherwise the number it shows is the first position holding the key. |
| Search.BindingExample | IanLearnsSwift1.playground/Contents.swift:28-36 | `findIndexOfString("Ian", ["Ben", "Ian"])` is 1, so the binding yields "yep, index is 1". |
| Decimal.Show | IanLearnsSwift1_2.0.playground/Contents.swift:271-273 | Interpolating an `Int` gives its canonical decimal text. A `-` comes first exactly when the number is negative. The digits after it are non-empty, have no leading zero, and read back as the number's absolute value. |
| Decimal.Parse | IanLearnsSwift1_2.0.playground/Contents.swift:68 | `Int(s)` of a run of digits whose value fits in `Int` is that value. Any result lies inside the 64-bit range and needs digits after an optional sign. Empty text, or text ending in a non-digit, gives `nil`. A negative value needs a leading `-`. |
| Decimal.ParseShow | IanLearnsSwift1.playground/Contents.swift:67 | Parsing the interpolation of any 64-bit `Int` gives that same `Int` back. |
| Wrappers.Option.Then | IanLearnsSwift1_2.0.playground/Contents.swift:67 | One `?.` step: the result is present exactly when the receiver is present and the step on its value yields something. It is then that value. |
| Optionals.BuildingNumber | IanLearnsSwift1_2.0.playground/Contents.swift:57-67 | The chain `residence?.address?.buildingNumber` is present exactly when the residence, the address and the building number are all present. It is then the building number. |
| Optionals.AddressNumber | IanLearnsSwift1.playground/Contents.swift:67-69 | Chaining on into `toInt()` is `nil` when the building number is missing. When it is present, the result is whatever parsing the building number gives. |
| Optionals.AddressNumberOfDigits | IanLearnsSwift1.playground/Contents.swift:67-69 | When every link is present and the building number is digits whose value fits in `Int`, the chain yields that value. |
| Optionals.SampleChain | IanLearnsSwift1_2.0.playground/Contents.swift:56-69 | With the playground's person, the chain yields "123" and the parsed number is 123. |
| Sorting.Sort | IanLearnsSwift1_2.0.playground/Contents.swift:186-188 | For any closure that is a strict weak ordering (Swift's requirement), `sort` returns a permutation of its input in which no element is ordered before an earlier one. |
| Sorting.SortedPermutationUnique | IanLearnsSwift1_2.0.playground/Contents.swift:206-227 | Two sorted permutations of the same elements are equal when the closure orders every two distinct elements. Any spelling of such a closure, and any algorithm, gives the same array. |
| Sorting.SortRespectsExtensionality | IanLearnsSwift1_2.0.playground/Contents.swift:196-202 | Two closures that agree on every pair of arguments give identical sort results. |
| Sorting.StrictTotalOrderIsWeak | IanLearnsSwift1_2.0.playground/Contents.swift:213-215 | A strict total order such as string `<` meets the strict-weak-ordering requirement of `sort`. |
| LexOrder.LexLess | IanLearnsSwift1_2.0.playground/Contents.swift:179-181 | String `<` never holds between equal strings. A proper prefix comes before the longer string. When `a < b`, the first character of `a` is at most that of `b`. |
| LexOrder.LexAsymmetric | IanLearnsSwift1_2.0.playground/Contents.swift:179-181 | String `<` never holds both ways round. |
| LexOrder.LexTransitive | IanLearnsSwift1_2.0.playground/Contents.swift:179-181 | String `<` is transitive. |
| LexOrder.LexTotal | IanLearnsSwift1_2.0.playground/Contents.swift:179-181 | Of two different strings, one is `<` the other. |
| Closures.AscendingIsStrictTotalOrder | IanLearnsSwift1_2.0.playground/Contents.swift:213-227 | The closure `{ $0 < $1 }` is a strict total order, so it is a valid `sort` argument. |
| Closures.DescendingIsStrictTotalOrder | IanLearnsSwift1_2.0.playground/Contents.swift:196-202 | `{ $0 > $1 }` and `backwards` are strict total orders, so both are valid `sort` arguments. |
| Closures.Backwards | IanLearnsSwift1_2.0.playground/Contents.swift:199-201 | `backwards(s1, s2)` holds only for distinct strings with `s1 < s2` false. For distinct strings it fails only when `s1 < s2`. |
| Closures.SortByCount | IanLearnsSwift1.playground/Contents.swift:176-192 | Sorting with `count(a) < count(b)` returns a permutation whose character counts never decrease. |
| Closures.SortAscending | IanLearnsSwift1_2.0.playground/Contents.swift:213-227 | `sort { $0 < $1 }` returns a permutation in non-decreasing string order. |
| Closures.SortDescending | IanLearnsSwift1_2.0.playground/Contents.swift:178-188 | `sortInPlace { a > b }` and `sort { a > b }` leave a permutation in non-increasing string order. |
| Closures.SortBackwards | IanLearnsSwift1_2.0.playground/Contents.swift:202 | `sort(backwards)` returns a permutation in which no element is `backwards`-before an earlier one. |
| Closures.BackwardsSortsLikeDescending | IanLearnsSwift1_2.0.playground/Contents.swift:196-202 | `sort(backwards)` and `sort { $0 > $1 }` give the same array for every input. |
| Closures.AscendingUnique | IanLearnsSwift1_2.0.playground/Contents.swift:206-227 | Every ascending permutation of the input equals the result of `sort { $0 < $1 }`, so the four spellings agree. |
| Closures.DescendingUnique | IanLearnsSwift1_2.0.playground/Contents.swift:186-188 | Every descending permutation of the input equals the result of `sort { a > b }`. |
| Closures.DescendingIsReversedAscending | IanLearnsSwift1_2.0.playground/Contents.swift:186-196 | Sorting with `>` gives the result of sorting with `<`, read backwards. |
| Closures.CountSortsAgreeOnCounts | IanLearnsSwift1.playground/Contents.swift:189-203 | Any permutation whose counts never decrease has the same count sequence as the result of sorting by count, so the four count-closure spellings agree on lengths. |
| Closures.CountUniqueWhenDistinct | IanLearnsSwift1.playground/Contents.swift:174-186 | When the counts are all different, sorting by count has exactly one possible result. |
| Closures.SortInPlaceExample | IanLearnsSwift1_2.0.playground/Contents.swift:178-202 | ["Pestov", "Test", "ian"] sorted with `>` or `backwards` is ["ian", "Test", "Pestov"]. |
| Closures.AscendingClientsExample | IanLearnsSwift1_2.0.playground/Contents.swift:191-193 | Sorting ["ian", "Test", "Pestov"] with `<` gives ["Pestov", "Test", "ian"]. |
| Closures.PermanentClientsExample | IanLearnsSwift1_2.0.playground/Contents.swift:206-215 | ["Apple", "Google"] sorted with `<` is unchanged. |
| Closures.CountClientsExample | IanLearnsSwift1.playground/Contents.swift:174-186 | ["Pestov", "Test", "ian"] sorted by count is ["ian", "Test", "Pestov"]. |
| Closures.CountPermanentClientsExample | IanLearnsSwift1.playground/Contents.swift:189-192 | `sorted(["Apple", "NSA"])` by count is ["NSA", "Apple"]. |
| Counting.Counts | IanLearnsSwift1.playground/Contents.swift:176-179 | The counts list has one entry per name, and entry `i` is the character count of name `i`. |
| Counting.CountsOfPermutation | IanLearnsSwift1.playground/Contents.swift:189-203 | Permuting a list of names permutes its list of character counts. |
| Reduce.ReduceAppend | IanLearnsSwift1_2.0.playground/Contents.swift:230-236 | `reduce(_:combine:)` threads the accumulator left to right. Reducing `a + b` is reducing `b` from the reduction of `a`. |
| Reduce.CheckedAdd | IanLearnsSwift1_2.0.playground/Contents.swift:231-236 | The `+` closure gives the exact sum when it fits in 64 bits and traps otherwise. After a trap nothing is produced. |
| Reduce.ReduceIsSum | IanLearnsSwift1_2.0.playground/Contents.swift:230-237 | For an in-range initial value, `reduce(initial, combine: +)` equals the initial value plus the sum when every running total fits in `Int`. It traps exactly when one does not. |
| Reduce.NonNegativeTotalsFit | IanLearnsSwift1.playground/Contents.swift:206-213 | Adding up non-negative numbers whose sum fits in `Int` never overflows at any step. |
| Reduce.NumsExample | IanLearnsSwift1.playground/Contents.swift:206-213 | `[1, 2, 3, 4, 5, 6].reduce(0, combine: +)` is 21. |
| Trains.FirstMatch | IanLearnsSwift1_2.0.playground/Contents.swift:267-274 | A `switch` takes the first arm whose pattern matches: the chosen arm matches and no earlier arm does. There is no arm exactly when no pattern matches. |
| Trains.PatternCoverage | IanLearnsSwift1.playground/Contents.swift:243-250 | A `.Delayed(lo...hi)` pattern matches only statuses that `.Delayed(let minutes)` also matches. Every status matches exactly one of `.OnTime` and `.Delayed(let minutes)`, and `default` matches everything. |
| Trains.LateBy | IanLearnsSwift1_2.0.playground/Contents.swift:272-273 | `"damn, late by \(minutes)"` is the fixed text followed by a number that reads back as the minutes. |
| Trains.RangeSwitchArm | IanLearnsSwift1.playground/Contents.swift:242-251 | `.OnTime` takes arm 0 and `.Delayed(m)` with 0 ≤ m ≤ 5 takes arm 1. Any other delay takes arm 2, so `default` never runs. |
| Trains.DuplicateSwitchArm | IanLearnsSwift1.playground/Contents.swift:257-266 | Every `.Delayed` takes the first `.Delayed(let minutes)` arm, so the "late by" arm and `default` never run. |
| Trains.GuardedSwitchArm | IanLearnsSwift1_2.0.playground/Contents.swift:267-274 | The `where 0...5 ~= minutes` arm takes exactly the delays from 0 to 5. Every other delay takes the next arm. |
| Trains.RangeSwitch | IanLearnsSwift1.playground/Contents.swift:242-251 | `OnTime` gives "awesome". A delay of 0 to 5 minutes gives the "?? minutes" text. Any other delay gives "damn, late by m". |
| Trains.DuplicateSwitch | IanLearnsSwift1.playground/Contents.swift:257-266 | `OnTime` gives "awesome" and every delay gives the little-delay text. |
| Trains.GuardedSwitch | IanLearnsSwift1_2.0.playground/Contents.swift:267-274 | `OnTime` gives "awesome". A delay of 0 to 5 minutes gives "just a little delay of m minutes". Any other delay gives "damn, late by m". |
| Trains.DelayedFourExample | IanLearnsSwift1.playground/Contents.swift:237-266 | `Delayed(4)` takes the little-delay arm in both Swift 1.2 switches. |
| Trains.DelayedTenExample | IanLearnsSwift1_2.0.playground/Contents.swift:264-274 | `Delayed(10)` gives "damn, late by 10" in Swift 2. |
| Cars.NewCar | IanLearnsSwift1_2.0.playground/Contents.swift:108-112 | `Car(color:)` builds a plain car, not a race car, painted with the given colour. |
| Cars.NewRaceCar | IanLearnsSwift1_2.0.playground/Contents.swift:120-123 | The designated `RaceCar` initialiser stores the given turbo flag and colour. |
| Cars.RaceCarWithColor | IanLearnsSwift1_2.0.playground/Contents.swift:133-135 | `RaceCar(color:)` gives a race car with the given colour and `hasTurbo` true. |
| Cars.DefaultRaceCar | IanLearnsSwift1_2.0.playground/Contents.swift:136-138 | `RaceCar()` gives a turbo race car painted (1.5, 2.0, 4.5). |
| Cars.NewFormulaOne | IanLearnsSwift1_2.0.playground/Contents.swift:141-152 | `FormulaOne(color:)` gives a race car with the given colour, `hasTurbo` false and `minimumWeight` 642. |
| Cars.FormulaOneOverridesTurbo | IanLearnsSwift1_2.0.playground/Contents.swift:133-151 | For every colour, the `RaceCar` colour initialiser turns the turbo on and the `FormulaOne` one turns it off, with the same paint. |
| Cars.FillGasTank | IanLearnsSwift1_2.0.playground/Contents.swift:114-127 | Both `fillGasTank` bodies leave the car unchanged. |
| Cars.TuneUp | IanLearnsSwift1_2.0.playground/Contents.swift:279-287 | Only a `FormulaOne` matches the first arm. Because of the `fallthrough`, every car ends with "Fill the gas tank" and is left unchanged. |

## Left out

- `import UIKit`, and the bare expressions a playground evaluates only for display (`newArray`, `lightStruct`, `"\(redshade)"`, `var message: String`, `"Ian".characters.count`): they have no behaviour beyond display.
- The `Color` struct's `Double` fields and the 4-tuple `color` switch, which uses `Double` range patterns: floating point is out of scope. `Color` is carried as three `real`s and never computed with.
- The `FileHandle` `deinit`, the `weak`/`unowned` comments and the `lazy var` in `Game`: these concern object lifetime and reference identity, not values.
- `doStuff` with `print` and `defer`, and `nums.map(println)`: console output.
- `saveStateB` and `saveStateC` only show argument labels and compute nothing.
- Swift's `String` `==` is Unicode canonical equivalence: `"é"` written as one character equals `e` followed by a combining accent. `findIndexOfString` compares with it, but the model compares characters one by one, so such a key is not found. Swift orders non-ASCII strings by Unicode collation (`"é" < "f"`), while the model orders by code point, so `é` comes after `f`. `count` / `characters.count` count grapheme clusters, while the model uses sequence length. For the ASCII names in the playgrounds all three agree.
- Swift's sort algorithm is not modelled. `Sorting.Sort` is an insertion sort, and its contract is only what Swift promises: a permutation, in closure order. Stability is not promised.
- `sortInPlace` and the mutating Swift 1.2 `sort` are modelled as assigning the sorted value back to the variable. Array values are immutable, so "`permanentClients` is unchanged" holds by construction.
- In-place mutation of class instances, such as `address.buildingNumber = "123"`, is modelled by building the final record values directly.
- Decimal.Parse: the contract fixes the value for plain digit strings only. For text with a sign it states only the shape of an accepted text and the sign of the result; values there are fixed only for what `Decimal.Show` prints, by `Decimal.ParseShow`. Swift 1.2's `toInt()` is assumed to accept the same syntax as Swift 2's `Int(_:)`, because the standard library is not part of this model.
- Closures.SortByCount: the order of names with equal counts is left open, as in Swift. Only the count sequence is determined (`Closures.CountSortsAgreeOnCounts`).
- Reduce.ReduceIsSum: requires the initial value to be a 64-bit `Int`, which Swift's types guarantee.
