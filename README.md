# Moving-estimate core of the tiscon5 estimator, modelled in Dafny

The estimator quotes a house move. `EstimateDao` in the Java source is mostly
database glue. Three pieces of it hold real decisions, and this project models
those three:

- **Truck pricing** (`getPricePerTruck`). A total box count is priced against
  a two-row TRUCK_CAPACITY table: row 0 is the small truck, row 1 the large one.
  The rule has four bands, tried in order:
  1. one small truck;
  2. one large truck;
  3. `boxNum / maxBox1` full large trucks plus one small truck when the remainder fits it;
  4. otherwise, those large trucks plus one more large truck.

  The quotient and the remainder are computed before any band is tried. So a
  table with fewer than two rows, or a zero large capacity, throws for every
  box count. Module `TruckPricing`.
- **Prefecture-id normalisation**. The ids "01" to "09" lose their leading
  zero before the lookup. Every other id is used as it is. Module `PrefectureCode`.
- **Reference scan** in `getDistance`. Each line of the latitude/longitude file
  is split at its commas, the way Java's `split(",", 0)` does it (module
  `CsvLine`). Each line is then compared with the origin key and with the
  destination key. A line matching a key overwrites that endpoint's
  coordinates. The loop never exits early, so the last matching line wins. An
  endpoint that no line matches keeps the initial zeros. Module `ReferenceScan`,
  method `LocateEndpoints`.

Modelling choices:
- The pricing table is a parameter; the source reads it with `gettruckPrice`.
- Java's truncating `int` division and remainder are written out as `JavaDiv`
  and `JavaRem`.
- The two exceptions `getPricePerTruck` can throw become a `Result`.
- The reference file is the sequence of lines read before the end of the file
  or before an I/O error. The source catches `IOException` after the loop and
  keeps whatever the four accumulators hold. That is exactly the scan of the
  lines read so far, or no lines at all when the file cannot be opened.
- A coordinate is kept as the text of its field: `Parsed(s)` stands for
  `Double.parseDouble(s)`. `Zero` is the initial `0`.
- The source does not catch `ArrayIndexOutOfBoundsException`. It is thrown
  when a line has no field at all, when a line whose code matches has no
  address field, or when a line whose code and address match has fewer than
  four fields. It is modelled as `Failure(FieldMissing(line, field))`.

Behaviour worth noting:
- When several reference rows match a key, the last matching row wins.
- Exactly the nine ids "01".."09" are stripped.
- A zero large capacity throws `ArithmeticException` inside `getPricePerTruck`.
- A malformed reference line aborts `getDistance` with the exception above.
- The price never decreases as the box count grows when the capacities
  ascend, the large capacity is positive and the prices are non-negative and
  ascending (`0 <= price0 <= price1`). The model proves it under these conditions.

## Model

| member | source | states |
|---|---|---|
| `TruckPricing.JavaDiv` | src/main/java/com/tiscon/dao/EstimateDao.java:225 | `boxNum / maxBox1` truncates toward zero: its magnitude is the quotient of the magnitudes, it is negative only for operands of opposite signs and positive only for operands of the same sign, and it is the Euclidean quotient for a non-negative dividend and a positive divisor |
| `TruckPricing.JavaDivRoundsTowardZero` | src/main/java/com/tiscon/dao/EstimateDao.java:225 | `-7 / 2` and `7 / -2` are -3 and `-7 / -2` is 3, as Java computes them |
| `TruckPricing.JavaRem` | src/main/java/com/tiscon/dao/EstimateDao.java:226 | `boxNum % maxBox1` recomposes the dividend with JavaDiv, lies strictly within the divisor's magnitude and has the dividend's sign |
| `TruckPricing.PricePerTruck` | src/main/java/com/tiscon/dao/EstimateDao.java:215-240 | the quote fails exactly when the table has fewer than two rows (IndexOutOfBounds) or the large capacity is zero (DivisionByZero), whatever the box count |
| `TruckPricing.SmallBand` | src/main/java/com/tiscon/dao/EstimateDao.java:228-229 | a load within the small capacity costs the small price, whatever row 1's price is |
| `TruckPricing.LargeBand` | src/main/java/com/tiscon/dao/EstimateDao.java:230-231 | a load above the small capacity but within the large one costs the large price |
| `TruckPricing.MultiTruckBand` | src/main/java/com/tiscon/dao/EstimateDao.java:225-236 | beyond the large capacity the quote is `div` large trucks plus the small price when the remainder fits the small truck, and plus one more large price otherwise |
| `TruckPricing.PriceIsPlanCost` | src/main/java/com/tiscon/dao/EstimateDao.java:225-238 | on a well-formed table the quote is the cost of a plan of large and small trucks that holds at most one small truck |
| `TruckPricing.PlanCarriesLoad` | src/main/java/com/tiscon/dao/EstimateDao.java:228-236 | the trucks charged for have enough combined capacity for every box of the load |
| `TruckPricing.ExactMultipleAddsSmallTruck` | src/main/java/com/tiscon/dao/EstimateDao.java:225-233 | a load of exactly k >= 2 large truckloads is charged k large trucks plus a small one, although the k large trucks alone carry it |
| `TruckPricing.PriceMonotone` | src/main/java/com/tiscon/dao/EstimateDao.java:215-240 | with ascending capacities and prices a larger load never gets a lower quote |
| `TruckPricing.SampleQuotes` | src/main/java/com/tiscon/dao/EstimateDao.java:228-236 | with tables (10, 5000) and (20, 9000) the quotes for 10, 15, 25, 35, 40 and 45 boxes are 5000, 9000, 14000, 18000, 23000 and 23000 |
| `TruckPricing.SampleFailures` | src/main/java/com/tiscon/dao/EstimateDao.java:221-226 | a one-row table and a zero large capacity fail even for 3 boxes, which the small truck would carry |
| `PrefectureCode.NormalizePrefecture` | src/main/java/com/tiscon/dao/EstimateDao.java:141-146 | an id changes exactly when it is '0' followed by a digit 1-9, and then becomes that digit alone |
| `PrefectureCode.NormalizeIdempotent` | src/main/java/com/tiscon/dao/EstimateDao.java:141-143 | normalising a normalised id changes nothing |
| `PrefectureCode.NormalizeCollisions` | src/main/java/com/tiscon/dao/EstimateDao.java:141-146 | two different ids share a lookup code only as "0d" and "d" for one digit d |
| `PrefectureCode.SampleNormalizations` | src/main/java/com/tiscon/dao/EstimateDao.java:141-146 | "01" and "09" become "1" and "9"; "10", "47", "0", "00", "" and "1" stay unchanged |
| `CsvLine.SplitAtCommas` | src/main/java/com/tiscon/dao/EstimateDao.java:157 | a line cut at every comma has at least one field and no field holds a comma |
| `CsvLine.JoinSplitAtCommas` | src/main/java/com/tiscon/dao/EstimateDao.java:157 | joining the fields with commas gives the line back |
| `CsvLine.SplitAtCommasJoin` | src/main/java/com/tiscon/dao/EstimateDao.java:157 | cutting joined comma-free fields gives the fields back |
| `CsvLine.DropTrailingEmpty` | src/main/java/com/tiscon/dao/EstimateDao.java:157 | the result is the longest prefix that does not end in an empty field, and everything dropped is empty |
| `CsvLine.JavaSplit` | src/main/java/com/tiscon/dao/EstimateDao.java:157 | `split(",", 0)` gives a prefix of the comma-cut fields, drops only empty ones, ends in a non-empty field when the line has a comma, and returns a comma-free line whole |
| `CsvLine.SplitAtFirstComma` | src/main/java/com/tiscon/dao/EstimateDao.java:157 | the first field of a line is everything before its first comma, and the remaining fields are those of the rest of the line |
| `CsvLine.JavaSplitJoin` | src/main/java/com/tiscon/dao/EstimateDao.java:157 | a line of two or more comma-free fields splits into those fields without the trailing empty ones |
| `CsvLine.SplitReferenceRow` | src/main/java/com/tiscon/dao/EstimateDao.java:157 | a row "code,address,lat,lng" with a non-empty last field splits into its four fields |
| `CsvLine.SampleSplitNoFields` | src/main/java/com/tiscon/dao/EstimateDao.java:157 | the line ",," splits into no field and the empty line into one empty field |
| `ReferenceScan.MissingField` | src/main/java/com/tiscon/dao/EstimateDao.java:157-167 | comparing a line with a key throws exactly when it reads a missing field. Field 1 is read only after field 0 equals the code. Fields 2 and 3 are read only after field 1 equals the address |
| `ReferenceScan.CompareRow` | src/main/java/com/tiscon/dao/EstimateDao.java:158-169 | one nested `if` block of the loop body: it throws exactly as MissingField says. Otherwise it overwrites the latitude and longitude with fields 2 and 3 when the code and the address both match, and leaves them alone when they do not |
| `ReferenceScan.LocateEndpoints` | src/main/java/com/tiscon/dao/EstimateDao.java:130-170 | both ids are normalised alike. On success no line throws, and each endpoint holds the last match for its own key. On failure the error names the first line that throws and the field it reads |
| `ReferenceScan.LastMatchIsLastMatchingRow` | src/main/java/com/tiscon/dao/EstimateDao.java:156-170 | an endpoint takes the coordinates of the last line whose code and address equal its key |
| `ReferenceScan.LastMatchUnresolved` | src/main/java/com/tiscon/dao/EstimateDao.java:135-170 | an endpoint keeps both zeros exactly when no line matches its key |
| `ReferenceScan.LastMatchIgnoresOtherRows` | src/main/java/com/tiscon/dao/EstimateDao.java:156-169 | inserting a line that does not match a key, anywhere in the file, leaves that key's coordinates unchanged when the scan still succeeds (a line such as ",," has no field 0 and makes the scan throw) |
| `ReferenceScan.SingleRowLookup` | src/main/java/com/tiscon/dao/EstimateDao.java:154-170 | a one-row file resolves its own code and address to the row's coordinates, and resolves the same code with another address to zeros |

## Left out

- `insertCustomer`, `insertCustomersOptionService`, `batchInsertCustomerPackage`, `getAllPrefectures`, `getBoxPerPackage`, `gettruckPrice` and `getPricePerOptionalService` are left out. Each one runs a single SQL statement through Spring's JDBC template and has no logic of its own.
- Opening and reading `C://lonlat.csv` is left out. The model takes the lines read before the end of the file or an I/O error as its input. Printing the caught `IOException` and the unclosed reader on that path are left out too.
- `Double.parseDouble` is not modelled. A coordinate is the text of its field, so the `NumberFormatException` a malformed number would throw is not modelled either.
- The great-circle distance is left out: the degree-to-radian conversion, `sin`, `cos` and `acos`, and the radius 6378.137 km. This is floating-point and transcendental arithmetic.
- The commented-out SQL version of `getDistance` and the unused `PrefectureDistance` object are left out. One is dead code and the other has no effect on the result.
- A `null` prefecture id, which throws `NullPointerException` at the first `equals` of the normalisation, is not modelled. Dafny strings cannot be null. (A `null` address would not throw: `equals(null)` is false, so that endpoint keeps its zeros.)
- ReferenceScan.LastMatchUnresolved: its reverse direction holds of the `Zero` constructor only. A matching row whose coordinate fields read "0" or "0.0" parses to the same 0.0 the initial value has, so a caller that tests the doubles for zero cannot tell that case from no match.
- TruckPricing.PricePerTruck: does not model Java's 32-bit wrap-around. Integers are unbounded here, so `div * price` and the sums never overflow as they can in Java.
- TruckPricing.JavaDiv: does not model the overflow of `Integer.MIN_VALUE / -1`.
