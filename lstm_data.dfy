/** The data preparation of the vitals-forecasting trainer
    (lib/train_model.py, `process_flutter_data` and `prepare_data_for_lstm`).
    Vital-sign values are an opaque type `V`; labels an opaque type `L`. */
module LstmData {
  import opened Wrappers

  /** The five fields the trainer keeps, in the order of a feature row. */
  const FieldNames: seq<string> :=
    ["heartRate", "bloodPressureSystolic", "bloodPressureDiastolic", "temperature", "bloodSugar"]

  /** One processed reading: a dictionary with exactly the five fields. */
  datatype Vitals<V> = Vitals(heartRate: V, bloodPressureSystolic: V, bloodPressureDiastolic: V,
                              temperature: V, bloodSugar: V)

  /** `vitals[name]` on a processed reading; `None` for any other key. */
  function Field<V>(v: Vitals<V>, name: string): Option<V>
  {
    if name == "heartRate" then Some(v.heartRate)
    else if name == "bloodPressureSystolic" then Some(v.bloodPressureSystolic)
    else if name == "bloodPressureDiastolic" then Some(v.bloodPressureDiastolic)
    else if name == "temperature" then Some(v.temperature)
    else if name == "bloodSugar" then Some(v.bloodSugar)
    else None
  }

  /** A record as loaded from the app's JSON: any keys, any values. */
  type Record<V> = map<string, V>

  /** Python's `KeyError` naming the missing key. */
  datatype KeyError = KeyError(key: string)

  /** Python's `IndexError` on `labels[i + sequence_length]`. */
  datatype IndexError = IndexError

  /** The first of `names` that `m` lacks, if any. */
  function FirstMissing<V>(m: Record<V>, names: seq<string>): (r: Option<string>)
    ensures r == None <==> forall k :: 0 <= k < |names| ==> names[k] in m
    ensures r.Some? ==> exists j :: 0 <= j < |names| && names[j] == r.value && r.value !in m &&
                                    forall k :: 0 <= k < j ==> names[k] in m
  {
    if names == [] then None
    else if names[0] !in m then Some(names[0])
    else
      var r := FirstMissing(m, names[1..]);
      if r.Some? then
        var j :| 0 <= j < |names[1..]| && names[1..][j] == r.value && r.value !in m &&
                 forall k :: 0 <= k < j ==> names[1..][k] in m;
        assert names[j + 1] == r.value;
        assert forall k :: 1 <= k < j + 1 ==> names[k] == names[1..][k - 1];
        r
      else
        assert forall k :: 1 <= k < |names| ==> names[k] == names[1..][k - 1];
        r
  }

  /** The dictionary literal of `process_flutter_data` for one record: the
      five lookups in field order, the first missing key raising `KeyError`,
      and `bloodSugar` passed through `toFloat` (Python's `float`). */
  function ProjectRecord<V>(m: Record<V>, toFloat: V -> V): (r: Result<Vitals<V>, KeyError>)
    ensures r.Ok? <==> forall k :: 0 <= k < |FieldNames| ==> FieldNames[k] in m
    ensures r.Err? ==> FirstMissing(m, FieldNames) == Some(r.error.key)
  {
    match FirstMissing(m, FieldNames)
    case Some(key) => Err(KeyError(key))
    case None =>
      assert FieldNames[0] in m && FieldNames[1] in m && FieldNames[2] in m;
      assert FieldNames[3] in m && FieldNames[4] in m;
      Ok(Vitals(m["heartRate"], m["bloodPressureSystolic"], m["bloodPressureDiastolic"],
                m["temperature"], toFloat(m["bloodSugar"])))
  }

  /** A projected record has the five fields with the record's values, only
      `bloodSugar` converted; the keys the record has beyond these are
      dropped. */
  lemma ProjectKeepsFields<V>(m: Record<V>, toFloat: V -> V, name: string)
    requires ProjectRecord(m, toFloat).Ok?
    ensures var v := ProjectRecord(m, toFloat).value;
            && (name in FieldNames <==> Field(v, name).Some?)
            && (name in FieldNames && name != "bloodSugar" ==> Field(v, name) == Some(m[name]))
            && (name == "bloodSugar" ==> Field(v, name) == Some(toFloat(m[name])))
  {
    assert FieldNames[0] in m && FieldNames[1] in m && FieldNames[2] in m;
    assert FieldNames[3] in m && FieldNames[4] in m;
  }

  /** `process_flutter_data`: one processed reading per record, in order;
      the first record lacking a field aborts with that field's `KeyError`. */
  method ProcessFlutterData<V>(data: seq<Record<V>>, toFloat: V -> V)
    returns (r: Result<seq<Vitals<V>>, KeyError>)
    ensures r.Ok? <==> forall i :: 0 <= i < |data| ==> ProjectRecord(data[i], toFloat).Ok?
    ensures r.Ok? ==> |r.value| == |data| &&
                      forall i :: 0 <= i < |data| ==> Ok(r.value[i]) == ProjectRecord(data[i], toFloat)
    ensures r.Err? ==> exists j :: 0 <= j < |data| && Err(r.error) == ProjectRecord(data[j], toFloat) &&
                                   forall i :: 0 <= i < j ==> ProjectRecord(data[i], toFloat).Ok?
  {
    var vitalsData: seq<Vitals<V>> := [];
    for i := 0 to |data|
      invariant |vitalsData| == i
      invariant forall k :: 0 <= k < i ==> Ok(vitalsData[k]) == ProjectRecord(data[k], toFloat)
    {
      var p := ProjectRecord(data[i], toFloat);
      if p.Err? {
        return Err(p.error);
      }
      vitalsData := vitalsData + [p.value];
    }
    r := Ok(vitalsData);
  }

  /** The feature row of one reading. */
  function Row<V>(v: Vitals<V>): seq<V>
  {
    [v.heartRate, v.bloodPressureSystolic, v.bloodPressureDiastolic, v.temperature, v.bloodSugar]
  }

  /** A row has five entries, entry `k` being the reading's field named
      `FieldNames[k]`; the reading can be read back from its row. */
  lemma RowFields<V>(v: Vitals<V>)
    ensures |Row(v)| == |FieldNames| == 5
    ensures forall k :: 0 <= k < 5 ==> Field(v, FieldNames[k]) == Some(Row(v)[k])
    ensures FromRow(Row(v)) == v
  {
  }

  function FromRow<V>(row: seq<V>): Vitals<V>
    requires |row| == 5
  {
    Vitals(row[0], row[1], row[2], row[3], row[4])
  }

  /** The window of `len` rows starting at reading `i`. */
  function Window<V>(vitals: seq<Vitals<V>>, i: nat, len: nat): (w: seq<seq<V>>)
    requires i + len <= |vitals|
    ensures |w| == len
  {
    seq(len, k requires 0 <= k < len => Row(vitals[i + k]))
  }

  /** Consecutive windows overlap in all rows but one: dropping the first row
      of window `i` gives the beginning of window `i + 1`. */
  lemma WindowsSlide<V>(vitals: seq<Vitals<V>>, i: nat, len: nat)
    requires 0 < len && i + 1 + len <= |vitals|
    ensures Window(vitals, i, len)[1..] == Window(vitals, i + 1, len)[..len - 1]
    ensures Window(vitals, i + 1, len)[len - 1] == Row(vitals[i + len])
  {
    var a, b := Window(vitals, i, len)[1..], Window(vitals, i + 1, len)[..len - 1];
    assert forall k :: 0 <= k < len - 1 ==> a[k] == Row(vitals[i + 1 + k]) == b[k];
  }

  /** Number of windows: `len(range(n - sequence_length))`. */
  function WindowCount(n: nat, len: nat): nat
  {
    if n > len then n - len else 0
  }

  /** The windows and, when labels are given, the label following each. */
  datatype Prepared<V, L> = Prepared(x: seq<seq<seq<V>>>, y: Option<seq<L>>)

  /** `prepare_data_for_lstm` (the `np.array` conversion is not modelled):
      window `i` holds readings `i .. i+len-1` and its label is
      `labels[i + len]`. The last possible window, starting at `n - len`,
      has no following label and is not produced. Labels shorter than the
      readings raise `IndexError` whenever there is at least one window. */
  method PrepareDataForLstm<V, L>(vitals: seq<Vitals<V>>, labels: Option<seq<L>>, len: nat)
    returns (r: Result<Prepared<V, L>, IndexError>)
    ensures r.Err? <==> labels.Some? && |vitals| > len && |labels.value| < |vitals|
    ensures r.Ok? ==> |r.value.x| == WindowCount(|vitals|, len) &&
                      forall i :: 0 <= i < |r.value.x| ==>
                        |r.value.x[i]| == len &&
                        forall k :: 0 <= k < len ==> r.value.x[i][k] == Row(vitals[i + k])
    ensures r.Ok? ==> (r.value.y.Some? <==> labels.Some?)
    ensures r.Ok? && labels.Some? ==>
              |r.value.y.value| == |r.value.x| &&
              forall i :: 0 <= i < |r.value.x| ==> r.value.y.value[i] == labels.value[i + len]
  {
    var x: seq<seq<seq<V>>> := [];
    var y: seq<L> := [];
    var count := WindowCount(|vitals|, len);
    for i := 0 to count
      invariant |x| == i
      invariant forall j :: 0 <= j < i ==> x[j] == Window(vitals, j, len)
      invariant labels.Some? ==> |y| == i
      invariant labels.Some? && i > 0 ==> i - 1 + len < |labels.value|
      invariant labels.Some? ==> forall j :: 0 <= j < i ==> y[j] == labels.value[j + len]
    {
      var sequenceData := seq(len, k requires 0 <= k < len => Row(vitals[i + k]));
      x := x + [sequenceData];
      if labels.Some? {
        if i + len >= |labels.value| {
          return Err(IndexError);
        }
        y := y + [labels.value[i + len]];
      }
    }
    r := Ok(Prepared(x, if labels.Some? then Some(y) else None));
  }
}
