/** The `:FORM:ELEM` element list of the 6517B controller
    (kiv/Keithley_IV.py): which reading elements the device returns per
    sample, how many there are, and whether temperature is among them. */
module Format {

  /** Number of occurrences of c in s (Python's `str.count`). */
  function CountChar(s: string, c: char): (n: nat)
    ensures n <= |s|
  {
    if s == [] then 0 else (if s[0] == c then 1 else 0) + CountChar(s[1..], c)
  }

  lemma {:induction false} CountCharAppend(a: string, b: string, c: char)
    ensures CountChar(a + b, c) == CountChar(a, c) + CountChar(b, c)
  {
    if a == [] {
      assert a + b == b;
    } else {
      assert (a + b)[0] == a[0] && (a + b)[1..] == a[1..] + b;
      CountCharAppend(a[1..], b, c);
    }
  }

  lemma {:induction false} CountCharAbsent(s: string, c: char)
    requires forall i :: 0 <= i < |s| ==> s[i] != c
    ensures CountChar(s, c) == 0
  {
    if s != [] {
      CountCharAbsent(s[1..], c);
    }
  }

  /** Elements per sample: the commas of the list plus one. */
  function ElementCount(elems: string): (n: nat)
    ensures n >= 1
  {
    CountChar(elems, ',') + 1
  }

  /** The element names written out as a comma-separated list. */
  function JoinComma(names: seq<string>): (s: string)
    requires |names| > 0
    decreases |names|
  {
    if |names| == 1 then names[0] else names[0] + "," + JoinComma(names[1..])
  }

  predicate NoComma(names: seq<string>)
  {
    forall k, i :: 0 <= k < |names| && 0 <= i < |names[k]| ==> names[k][i] != ','
  }

  /** Counting commas recovers the number of elements of any list whose
      names contain no comma; this is what makes the derived count agree
      with the element list sent to the device. */
  lemma {:induction false} ElementCountOfList(names: seq<string>)
    requires |names| > 0 && NoComma(names)
    ensures ElementCount(JoinComma(names)) == |names|
    decreases |names|
  {
    CountCharAbsent(names[0], ',');
    if |names| > 1 {
      assert NoComma(names[1..]) by {
        forall k, i | 0 <= k < |names[1..]| && 0 <= i < |names[1..][k]|
          ensures names[1..][k][i] != ','
        {
          assert names[1..][k] == names[k + 1];
        }
      }
      ElementCountOfList(names[1..]);
      CountCharAppend(names[0], ",", ',');
      CountCharAppend(names[0] + ",", JoinComma(names[1..]), ',');
    }
  }

  /** The element names the instrument is asked for, current first. */
  function Elements(temperature: bool): (names: seq<string>)
    ensures |names| == (if temperature then 3 else 2) && NoComma(names)
  {
    if temperature then ["READ", "VSO", "ETEM"] else ["READ", "VSO"]
  }

  /** `data_out` as set in the 6517B constructor. */
  function DataOut(temperature: bool): string
  {
    if temperature then "READ,VSO,ETEM" else "READ,VSO"
  }

  lemma DataOutIsElementList(temperature: bool)
    ensures DataOut(temperature) == JoinComma(Elements(temperature))
  {
    assert JoinComma(["ETEM"]) == "ETEM";
    assert ["READ", "VSO", "ETEM"][1..] == ["VSO", "ETEM"];
    assert ["VSO", "ETEM"][1..] == ["ETEM"];
    assert JoinComma(["VSO", "ETEM"]) == "VSO,ETEM";
    assert ["READ", "VSO"][1..] == ["VSO"];
  }

  /** Python's `sub in s` on strings. */
  predicate Contains(s: string, sub: string)
  {
    exists i :: 0 <= i <= |s| - |sub| && OccursAt(s, sub, i)
  }

  predicate OccursAt(s: string, sub: string, i: int)
  {
    0 <= i <= |s| - |sub| && s[i..i + |sub|] == sub
  }

  /** The derived element count is 3 with temperature and 2 without. */
  lemma DataCountOfDataOut(temperature: bool)
    ensures ElementCount(DataOut(temperature)) == (if temperature then 3 else 2)
  {
    DataOutIsElementList(temperature);
    ElementCountOfList(Elements(temperature));
  }

  /** `'ETEM' in data_out` holds exactly when temperature was requested, so
      the temperature-sensing switch and the stride-3 split follow the flag. */
  lemma ReportsTemperatureIff(temperature: bool)
    ensures Contains(DataOut(temperature), "ETEM") <==> temperature
  {
    var s := DataOut(temperature);
    if temperature {
      assert OccursAt(s, "ETEM", 9);
    } else {
      forall i | 0 <= i <= |s| - 4
        ensures !OccursAt(s, "ETEM", i)
      {
        if i == 1 {
          assert s[i..i + 4][1] == 'A';
        } else {
          assert s[i..i + 4][0] != 'E';
        }
      }
    }
  }
}
