/**
 * The coordinate lookup of EstimateDao.getDistance: both prefecture ids are
 * normalised, then every line of the latitude/longitude reference file is
 * split at its commas and compared with the origin key and with the
 * destination key. A line whose code and address both match overwrites that
 * endpoint's latitude and longitude; there is no early exit, so the last
 * matching line wins, and an endpoint no line matches keeps its zeros.
 *
 * The file is the sequence of lines read before the end of the file or
 * before an I/O error: the source catches IOException after the loop and
 * carries on with whatever the accumulators hold, which is exactly the scan
 * of the lines read so far (no lines when the file cannot be opened).
 * A coordinate is kept as the text of its field; Parsed(s) stands for the
 * double Double.parseDouble(s) returns.
 */
module ReferenceScan {
  import opened Outcome
  import opened CsvLine
  import opened PrefectureCode

  /** One coordinate accumulator: still the initial 0, or read from a field. */
  datatype Degrees = Zero | Parsed(field: string)

  datatype LatLng = LatLng(lat: Degrees, lng: Degrees)

  /** The coordinates of an endpoint that no line matched. */
  const Unresolved := LatLng(Zero, Zero)

  /** What a line is compared with: the normalised prefecture code and the address. */
  datatype Key = Key(code: string, address: string)

  datatype Endpoints = Endpoints(origin: LatLng, destination: LatLng)

  /** ArrayIndexOutOfBoundsException: `data[field]` read past the fields of line `line`. */
  datatype ScanError = FieldMissing(line: nat, field: nat)

  /** The key a prefecture id and an address are looked up under. */
  function LookupKey(prefectureId: string, address: string): Key
  {
    Key(NormalizePrefecture(prefectureId), address)
  }

  /** The fields of every line, as `line.split(",", 0)` gives them. */
  function SplitLines(lines: seq<string>): seq<seq<string>>
  {
    seq(|lines|, i requires 0 <= i < |lines| => JavaSplit(lines[i]))
  }

  /** A complete row for `key`: its code and address are the key's, and both coordinates are present. */
  predicate Matches(data: seq<string>, key: Key)
  {
    |data| >= 4 && data[0] == key.code && data[1] == key.address
  }

  function CoordinatesOf(data: seq<string>): LatLng
    requires |data| >= 4
  {
    LatLng(Parsed(data[2]), Parsed(data[3]))
  }

  /**
   * The index of the first field the comparison of `data` with `key` reads
   * past the end of `data`, if any. Field 1 is read only once field 0 is
   * the code, fields 2 and 3 only once field 1 is the address.
   */
  function MissingField(data: seq<string>, key: Key): (missing: Option<nat>)
    ensures missing.Some? ==> |data| == missing.value < 4
    ensures missing.Some? && missing.value >= 1 ==> data[0] == key.code
    ensures missing.Some? && missing.value >= 2 ==> data[1] == key.address
    ensures missing.None? <==>
      |data| >= 1 && (data[0] == key.code ==> |data| >= 2 && (data[1] == key.address ==> |data| >= 4))
  {
    if |data| == 0 then Some(0)
    else if data[0] != key.code then None
    else if |data| < 2 then Some(1)
    else if data[1] != key.address then None
    else if |data| < 4 then Some(|data|)
    else None
  }

  /** The field whose read throws while a row is checked, origin first, then destination. */
  function RowFault(data: seq<string>, origin: Key, destination: Key): Option<nat>
  {
    match MissingField(data, origin)
    case Some(field) => Some(field)
    case None => MissingField(data, destination)
  }

  /** Rows none of which throws. */
  predicate FaultFree(rows: seq<seq<string>>, origin: Key, destination: Key)
  {
    forall j :: 0 <= j < |rows| ==> RowFault(rows[j], origin, destination).None?
  }

  /** The coordinates of the last row that matches `key`, or Unresolved. */
  function LastMatch(rows: seq<seq<string>>, key: Key): LatLng
    decreases |rows|
  {
    if rows == [] then Unresolved
    else
      var data := rows[|rows| - 1];
      if Matches(data, key) then CoordinatesOf(data) else LastMatch(rows[..|rows| - 1], key)
  }

  /**
   * The loop of getDistance over the reference file, after the two ids have
   * been normalised. On success each endpoint holds the coordinates of the
   * last line matching its own key; otherwise the error names the first line
   * that throws and the field it reads.
   */
  method LocateEndpoints(lines: seq<string>, prefectureIdFrom: string, prefectureIdTo: string,
                         oldAddress: string, newAddress: string)
    returns (r: Result<Endpoints, ScanError>)
    ensures var rows := SplitLines(lines);
      var origin, destination := LookupKey(prefectureIdFrom, oldAddress), LookupKey(prefectureIdTo, newAddress);
      match r
      case Success(ends) =>
        FaultFree(rows, origin, destination) &&
        ends.origin == LastMatch(rows, origin) && ends.destination == LastMatch(rows, destination)
      case Failure(FieldMissing(i, field)) =>
        i < |lines| && RowFault(rows[i], origin, destination) == Some(field) &&
        FaultFree(rows[..i], origin, destination)
  {
    var oldPre := NormalizePrefecture(prefectureIdFrom);
    var newPre := NormalizePrefecture(prefectureIdTo);
    ghost var rows := SplitLines(lines);
    ghost var origin, destination := Key(oldPre, oldAddress), Key(newPre, newAddress);
    var latOld, lngOld, latNew, lngNew := Zero, Zero, Zero, Zero;
    var i := 0;
    while i < |lines|
      invariant 0 <= i <= |lines|
      invariant FaultFree(rows[..i], origin, destination)
      invariant LatLng(latOld, lngOld) == LastMatch(rows[..i], origin)
      invariant LatLng(latNew, lngNew) == LastMatch(rows[..i], destination)
    {
      var data := JavaSplit(lines[i]);
      assert data == rows[i];
      var fault;
      fault, latOld, lngOld := CompareRow(data, oldPre, oldAddress, latOld, lngOld);
      if fault.Some? {
        return Failure(FieldMissing(i, fault.value));
      }
      fault, latNew, lngNew := CompareRow(data, newPre, newAddress, latNew, lngNew);
      if fault.Some? {
        return Failure(FieldMissing(i, fault.value));
      }
      LastMatchStep(rows, i, origin);
      LastMatchStep(rows, i, destination);
      FaultFreeStep(rows, i, origin, destination);
      i := i + 1;
    }
    assert rows[..i] == rows;
    r := Success(Endpoints(LatLng(latOld, lngOld), LatLng(latNew, lngNew)));
  }

  /**
   * One of the two nested `if` blocks of the loop body: compare the row with
   * a code and an address and, when both are equal, overwrite the latitude
   * and longitude with fields 2 and 3. `fault` is the field whose read
   * throws, if any.
   */
  method CompareRow(data: seq<string>, code: string, address: string, lat: Degrees, lng: Degrees)
    returns (fault: Option<nat>, lat': Degrees, lng': Degrees)
    ensures fault == MissingField(data, Key(code, address))
    ensures fault.None? ==>
      LatLng(lat', lng') == if Matches(data, Key(code, address)) then CoordinatesOf(data) else LatLng(lat, lng)
  {
    fault, lat', lng' := None, lat, lng;
    if |data| == 0 {
      return Some(0), lat, lng;
    }
    if data[0] == code {
      if |data| < 2 {
        return Some(1), lat, lng;
      }
      if data[1] == address {
        if |data| < 4 {
          return Some(|data|), lat, lng;
        }
        lat' := Parsed(data[2]);
        lng' := Parsed(data[3]);
      }
    }
  }

  /** Scanning one more row: a match overwrites the endpoint, anything else leaves it. */
  lemma LastMatchStep(rows: seq<seq<string>>, i: nat, key: Key)
    requires i < |rows|
    ensures LastMatch(rows[..i + 1], key) ==
      if Matches(rows[i], key) then CoordinatesOf(rows[i]) else LastMatch(rows[..i], key)
  {
    assert rows[..i + 1][..i] == rows[..i];
  }

  lemma FaultFreeStep(rows: seq<seq<string>>, i: nat, origin: Key, destination: Key)
    requires i < |rows|
    requires FaultFree(rows[..i], origin, destination)
    requires RowFault(rows[i], origin, destination).None?
    ensures FaultFree(rows[..i + 1], origin, destination)
  {
  }

  /** The endpoint takes the coordinates of the last row that matches its key. */
  lemma {:induction false} LastMatchIsLastMatchingRow(rows: seq<seq<string>>, key: Key, k: nat)
    requires k < |rows| && Matches(rows[k], key)
    requires forall j :: k < j < |rows| ==> !Matches(rows[j], key)
    ensures LastMatch(rows, key) == CoordinatesOf(rows[k])
    decreases |rows|
  {
    var init := rows[..|rows| - 1];
    if k < |rows| - 1 {
      assert forall j :: k < j < |init| ==> init[j] == rows[j];
      LastMatchIsLastMatchingRow(init, key, k);
    }
  }

  /** An endpoint stays at zero exactly when no row matches its key. */
  lemma {:induction false} LastMatchUnresolved(rows: seq<seq<string>>, key: Key)
    ensures LastMatch(rows, key) == Unresolved <==>
      forall j :: 0 <= j < |rows| ==> !Matches(rows[j], key)
    decreases |rows|
  {
    if rows != [] {
      var init := rows[..|rows| - 1];
      LastMatchUnresolved(init, key);
      assert forall j :: 0 <= j < |init| ==> init[j] == rows[j];
    }
  }

  /** Inserting a row that does not match the key anywhere leaves the endpoint unchanged. */
  lemma {:induction false} LastMatchIgnoresOtherRows(before: seq<seq<string>>, data: seq<string>,
                                                     after: seq<seq<string>>, key: Key)
    requires !Matches(data, key)
    ensures LastMatch(before + [data] + after, key) == LastMatch(before + after, key)
    decreases |after|
  {
    var with, without := before + [data] + after, before + after;
    if after == [] {
      assert with[..|with| - 1] == before;
      assert without == before;
    } else {
      var init := after[..|after| - 1];
      assert with[|with| - 1] == without[|without| - 1];
      assert with[..|with| - 1] == before + [data] + init;
      assert without[..|without| - 1] == before + init;
      LastMatchIgnoresOtherRows(before, data, init, key);
    }
  }

  /** A one-line file with the row for `code` and `address` resolves that key and no other address. */
  lemma SingleRowLookup(code: string, address: string, lat: string, lng: string, other: string)
    requires ',' !in code && ',' !in address && ',' !in lat && ',' !in lng
    requires lng != "" && other != address
    ensures var rows := SplitLines([code + "," + address + "," + lat + "," + lng]);
      LastMatch(rows, Key(code, address)) == LatLng(Parsed(lat), Parsed(lng)) &&
      LastMatch(rows, Key(code, other)) == Unresolved
  {
    var line := code + "," + address + "," + lat + "," + lng;
    SplitReferenceRow(code, address, lat, lng);
    var rows := SplitLines([line]);
    assert rows == [[code, address, lat, lng]];
    assert rows[..0] == [];
  }
}
