/**
 * Java's `line.split(",", 0)` as the reference scan uses it: the line is cut
 * at every comma, trailing empty fields are dropped, and a line without any
 * comma is returned whole as the single field (so "" gives [""] while ","
 * gives no field at all).
 */
module CsvLine {

  /** Every field between commas, empty ones included. */
  function SplitAtCommas(s: string): (fields: seq<string>)
    ensures |fields| >= 1
    ensures forall k :: 0 <= k < |fields| ==> ',' !in fields[k]
    decreases |s|
  {
    if s == [] then [""]
    else
      var rest := SplitAtCommas(s[1..]);
      if s[0] == ',' then [""] + rest else [[s[0]] + rest[0]] + rest[1..]
  }

  /** The fields written one after another with a comma between neighbours. */
  function Join(fields: seq<string>): string
  {
    if |fields| <= 1 then (if fields == [] then "" else fields[0])
    else fields[0] + "," + Join(fields[1..])
  }

  /** Joining the fields of a line gives the line back. */
  lemma {:induction false} JoinSplitAtCommas(s: string)
    ensures Join(SplitAtCommas(s)) == s
    decreases |s|
  {
    if s != [] {
      var rest := SplitAtCommas(s[1..]);
      JoinSplitAtCommas(s[1..]);
      if s[0] == ',' {
        assert ([""] + rest)[1..] == rest;
      } else {
        var fields := [[s[0]] + rest[0]] + rest[1..];
        assert fields[1..] == rest[1..];
        if |rest| > 1 {
          assert Join(rest) == rest[0] + "," + Join(rest[1..]);
        }
        assert s == [s[0]] + s[1..];
      }
    }
  }

  /** Splitting joined comma-free fields gives the fields back. */
  lemma {:induction false} SplitAtCommasJoin(fields: seq<string>)
    requires |fields| >= 1
    requires forall k :: 0 <= k < |fields| ==> ',' !in fields[k]
    ensures SplitAtCommas(Join(fields)) == fields
    decreases |fields|, |fields[0]|
  {
    var f := fields[0];
    if f == [] {
      if |fields| > 1 {
        assert Join(fields) == [','] + Join(fields[1..]);
        SplitAtCommasJoin(fields[1..]);
        assert [""] + fields[1..] == fields;
      }
    } else {
      var tail := [f[1..]] + fields[1..];
      assert tail[1..] == fields[1..];
      assert forall k :: 0 <= k < |tail| ==> ',' !in tail[k] by {
        forall k | 0 <= k < |tail| ensures ',' !in tail[k] {
          if k == 0 {
            assert f == [f[0]] + f[1..];
          } else {
            assert tail[k] == fields[k];
          }
        }
      }
      SplitAtCommasJoin(tail);
      if |fields| > 1 {
        assert Join(fields) == [f[0]] + Join(tail);
      } else {
        assert Join(fields) == [f[0]] + Join(tail);
      }
      assert f[0] != ',' by { assert f[0] in f; }
      assert ([f[0]] + Join(tail))[1..] == Join(tail);
      assert [f[0]] + f[1..] == f;
      assert [f] + fields[1..] == fields;
    }
  }

  /** A line without a comma is a single field. */
  lemma {:induction false} SplitWithoutComma(s: string)
    requires ',' !in s
    ensures SplitAtCommas(s) == [s]
    decreases |s|
  {
    if s != [] {
      assert s[0] in s;
      assert forall c :: c in s[1..] ==> c in s;
      SplitWithoutComma(s[1..]);
      assert s == [s[0]] + s[1..];
    }
  }

  /** `fields` without its run of trailing empty strings. */
  function DropTrailingEmpty(fields: seq<string>): (kept: seq<string>)
    ensures kept <= fields
    ensures |kept| > 0 ==> kept[|kept| - 1] != ""
    ensures forall k :: |kept| <= k < |fields| ==> fields[k] == ""
  {
    if fields != [] && fields[|fields| - 1] == "" then DropTrailingEmpty(fields[..|fields| - 1])
    else fields
  }

  /** The fields `line.split(",", 0)` yields. */
  function JavaSplit(line: string): (data: seq<string>)
    ensures data <= SplitAtCommas(line)
    ensures forall k :: |data| <= k < |SplitAtCommas(line)| ==> SplitAtCommas(line)[k] == ""
    ensures ',' in line ==> |data| > 0 ==> data[|data| - 1] != ""
    ensures ',' !in line ==> data == [line]
  {
    if ',' !in line then SplitWithoutComma(line); [line]
    else DropTrailingEmpty(SplitAtCommas(line))
  }

  /** The first field of a line runs up to its first comma. */
  lemma {:induction false} SplitAtFirstComma(head: string, rest: string)
    requires ',' !in head
    ensures SplitAtCommas(head + "," + rest) == [head] + SplitAtCommas(rest)
    decreases |head|
  {
    if head == [] {
      assert ("" + "," + rest)[1..] == rest;
    } else {
      assert head[0] in head;
      assert forall c :: c in head[1..] ==> c in head;
      SplitAtFirstComma(head[1..], rest);
      assert (head + "," + rest)[1..] == head[1..] + "," + rest;
      assert [head[0]] + head[1..] == head;
    }
  }

  /**
   * Splitting a line made of two or more comma-free fields gives those
   * fields without the trailing empty ones.
   */
  lemma JavaSplitJoin(fields: seq<string>)
    requires |fields| >= 2
    requires forall k :: 0 <= k < |fields| ==> ',' !in fields[k]
    ensures JavaSplit(Join(fields)) == DropTrailingEmpty(fields)
  {
    var line := Join(fields);
    assert line[|fields[0]|] == ',';
    SplitAtCommasJoin(fields);
  }

  /** A reference row with four fields, the last one non-empty, splits into those four. */
  lemma SplitReferenceRow(code: string, address: string, lat: string, lng: string)
    requires ',' !in code && ',' !in address && ',' !in lat && ',' !in lng
    requires lng != ""
    ensures JavaSplit(code + "," + address + "," + lat + "," + lng) == [code, address, lat, lng]
  {
    var fields := [code, address, lat, lng];
    assert Join(fields[3..]) == lng;
    assert Join(fields[2..]) == lat + "," + lng;
    assert Join(fields[1..]) == address + "," + lat + "," + lng;
    assert Join(fields) == code + "," + address + "," + lat + "," + lng;
    JavaSplitJoin(fields);
  }

  /** A line of commas alone has no field at all, an empty line one empty field. */
  lemma SampleSplitNoFields()
    ensures JavaSplit(",,") == []
    ensures JavaSplit("") == [""]
  {
  }
}
