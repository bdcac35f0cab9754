/** Assembling the input of a fan-in job from the outputs of the foreach children. */
module FanIns {
  import opened Collections
  import opened Graph
  import opened Workflows

  datatype Json = Null | Arr(items: seq<Json>) | Obj(fields: map<string, Json>) | Leaf(text: string)

  /** The JSON reader and writer and the external reducers are parameters. */
  datatype Codec = Codec(
    parse: Bytes -> Option<Json>,
    render: Json -> Option<Bytes>,
    reducer: (string, Bytes) -> Option<Bytes>)

  /** A missing output counts as no bytes. */
  function RawOutputs(children: seq<Id>, outputs: map<Id, Bytes>): (raws: seq<Bytes>)
    ensures |raws| == |children|
  {
    seq(|children|, i requires 0 <= i < |children| => if children[i] in outputs then outputs[children[i]] else "")
  }

  function ParseOrNull(codec: Codec, raw: Bytes): Json {
    var v := codec.parse(raw);
    if v.Some? then v.value else Null
  }

  function ArrayOf(codec: Codec, raws: seq<Bytes>): Option<Bytes> {
    codec.render(Arr(seq(|raws|, i requires 0 <= i < |raws| => ParseOrNull(codec, raws[i]))))
  }

  function Flatten(raws: seq<Bytes>): Bytes {
    if raws == [] then "" else raws[0] + Flatten(raws[1..])
  }

  /** The keys an output contributes to a merge: none unless it is a JSON object. */
  function FieldsOf(codec: Codec, raw: Bytes): map<string, Json> {
    var v := codec.parse(raw);
    if v.Some? && v.value.Obj? then v.value.fields else map[]
  }

  function Merged(codec: Codec, raws: seq<Bytes>): map<string, Json> {
    if raws == [] then map[] else Merged(codec, raws[..|raws| - 1]) + FieldsOf(codec, raws[|raws| - 1])
  }

  function Reduce(codec: Codec, mode: Option<ReduceMode>, raws: seq<Bytes>): Option<Bytes> {
    match mode
    case None => ArrayOf(codec, raws)
    case Some(JsonArray) => ArrayOf(codec, raws)
    case Some(Concat) => Some(Flatten(raws))
    case Some(JsonMerge) => codec.render(Obj(Merged(codec, raws)))
    case Some(Custom(path)) =>
      var input := ArrayOf(codec, raws);
      if input.None? then None else codec.reducer(path, input.value)
  }

  /** `build_fanin_input`: None means "use the job's own input". */
  function FaninInput(codec: Codec, jobs: map<Id, JobDef>, fm: map<Id, seq<Id>>, outputs: map<Id, Bytes>, j: Id)
    : Option<Bytes>
  {
    if j !in jobs || jobs[j].inputFrom.None? || jobs[j].inputFrom.value !in fm then None
    else Reduce(codec, jobs[j].reduce, RawOutputs(fm[jobs[j].inputFrom.value], outputs))
  }

  /** What is written can be read back, and no bytes at all are no JSON text. */
  ghost predicate RoundTrips(codec: Codec) {
    && codec.parse("").None?
    && forall v :: codec.render(v).Some? && codec.parse(codec.render(v).value) == Some(v)
  }

  // -- What a fan-in job gets, mode by mode ----------------------------------

  ghost predicate FansIn(jobs: map<Id, JobDef>, fm: map<Id, seq<Id>>, j: Id) {
    j in jobs && jobs[j].inputFrom.Some? && jobs[j].inputFrom.value in fm
  }

  ghost function KidsOf(jobs: map<Id, JobDef>, fm: map<Id, seq<Id>>, j: Id): seq<Id>
    requires FansIn(jobs, fm, j)
  {
    fm[jobs[j].inputFrom.value]
  }

  /** What child x wrote: nothing if it has no output. */
  ghost function Wrote(outputs: map<Id, Bytes>, x: Id): Bytes {
    if x in outputs then outputs[x] else ""
  }

  /** At index k the value the k-th child wrote, null if that is no JSON text. */
  ghost predicate AreValues(codec: Codec, kids: seq<Id>, outputs: map<Id, Bytes>, items: seq<Json>) {
    && |items| == |kids|
    && forall k :: 0 <= k < |kids| ==>
         var value := codec.parse(Wrote(outputs, kids[k]));
         items[k] == if value.Some? then value.value else Null
  }

  /** A job that is not fed from a foreach job with children gets nothing here. */
  lemma NoFanin(codec: Codec, jobs: map<Id, JobDef>, fm: map<Id, seq<Id>>, outputs: map<Id, Bytes>, j: Id)
    requires !FansIn(jobs, fm, j)
    ensures FaninInput(codec, jobs, fm, outputs, j) == None
  {
  }

  /** Without a mode, and with json_array: the array of the children's values, if it can be
      written; custom: what the named component makes of that array. */
  lemma ArrayAndCustomInput(codec: Codec, jobs: map<Id, JobDef>, fm: map<Id, seq<Id>>, outputs: map<Id, Bytes>, j: Id)
    returns (items: seq<Json>)
    requires FansIn(jobs, fm, j)
    ensures AreValues(codec, KidsOf(jobs, fm, j), outputs, items)
    ensures jobs[j].reduce == None || jobs[j].reduce == Some(JsonArray) ==>
        FaninInput(codec, jobs, fm, outputs, j) == codec.render(Arr(items))
    ensures jobs[j].reduce.Some? && jobs[j].reduce.value.Custom? && codec.render(Arr(items)).Some? ==>
        FaninInput(codec, jobs, fm, outputs, j)
          == codec.reducer(jobs[j].reduce.value.component, codec.render(Arr(items)).value)
    ensures jobs[j].reduce.Some? && jobs[j].reduce.value.Custom? && codec.render(Arr(items)).None? ==>
        FaninInput(codec, jobs, fm, outputs, j) == None
  {
    var raws := RawOutputs(KidsOf(jobs, fm, j), outputs);
    items := seq(|raws|, i requires 0 <= i < |raws| => ParseOrNull(codec, raws[i]));
  }

  /** A fan-in job without a reduce mode, or with json_array, reads an array: at index k what
      the k-th child wrote, null if it wrote nothing or no JSON. */
  lemma FaninReadsItsChildren(codec: Codec, jobs: map<Id, JobDef>, fm: map<Id, seq<Id>>, outputs: map<Id, Bytes>, j: Id)
    returns (items: seq<Json>)
    requires RoundTrips(codec) && FansIn(jobs, fm, j) && (jobs[j].reduce == None || jobs[j].reduce == Some(JsonArray))
    ensures FaninInput(codec, jobs, fm, outputs, j).Some?
    ensures codec.parse(FaninInput(codec, jobs, fm, outputs, j).value) == Some(Arr(items))
    ensures var kids := KidsOf(jobs, fm, j);
            && |items| == |kids|
            && forall k :: 0 <= k < |kids| ==>
                 items[k] == if kids[k] in outputs && codec.parse(outputs[kids[k]]).Some?
                             then codec.parse(outputs[kids[k]]).value else Null
  {
    items := ArrayAndCustomInput(codec, jobs, fm, outputs, j);
  }

  /** The component of a custom reducer reads the same array. */
  lemma CustomReducerReadsTheArray(codec: Codec, jobs: map<Id, JobDef>, fm: map<Id, seq<Id>>, outputs: map<Id, Bytes>,
                                   j: Id)
    returns (text: Bytes, items: seq<Json>)
    requires RoundTrips(codec) && FansIn(jobs, fm, j) && jobs[j].reduce.Some? && jobs[j].reduce.value.Custom?
    ensures FaninInput(codec, jobs, fm, outputs, j) == codec.reducer(jobs[j].reduce.value.component, text)
    ensures codec.parse(text) == Some(Arr(items)) && AreValues(codec, KidsOf(jobs, fm, j), outputs, items)
  {
    items := ArrayAndCustomInput(codec, jobs, fm, outputs, j);
    text := codec.render(Arr(items)).value;
  }

  /** How many bytes the children wrote together. */
  ghost function Written(outputs: map<Id, Bytes>, kids: seq<Id>): nat {
    if kids == [] then 0 else Written(outputs, kids[..|kids| - 1]) + |Wrote(outputs, kids[|kids| - 1])|
  }

  lemma {:induction false} FlattenLength(kids: seq<Id>, outputs: map<Id, Bytes>)
    ensures |Flatten(RawOutputs(kids, outputs))| == Written(outputs, kids)
  {
    if kids == [] {
    } else {
      var n := |kids| - 1;
      FlattenLength(kids[..n], outputs);
      var raws := RawOutputs(kids, outputs);
      ConcatInChildOrder(raws, n);
      assert raws[..n] == RawOutputs(kids[..n], outputs) && raws[n + 1..] == [];
    }
  }

  /** With concat the input is the children's bytes one after the other: those of the k-th
      begin where all bytes of the earlier ones end, and nothing else is there. */
  lemma ConcatInput(codec: Codec, jobs: map<Id, JobDef>, fm: map<Id, seq<Id>>, outputs: map<Id, Bytes>, j: Id, k: nat)
    requires FansIn(jobs, fm, j) && jobs[j].reduce == Some(Concat)
    ensures var input := FaninInput(codec, jobs, fm, outputs, j); var kids := KidsOf(jobs, fm, j);
            && input.Some? && |input.value| == Written(outputs, kids)
            && (k < |kids| ==>
                  var from, bytes := Written(outputs, kids[..k]), Wrote(outputs, kids[k]);
                  from + |bytes| <= |input.value| && input.value[from..from + |bytes|] == bytes)
  {
    var kids := KidsOf(jobs, fm, j);
    var raws := RawOutputs(kids, outputs);
    FlattenLength(kids, outputs);
    if k < |kids| {
      ConcatInChildOrder(raws, k);
      FlattenLength(kids[..k], outputs);
      assert raws[..k] == RawOutputs(kids[..k], outputs);
      var before, after := Flatten(raws[..k]), Flatten(raws[k + 1..]);
      assert (before + raws[k] + after)[|before|..|before| + |raws[k]|] == raws[k];
    }
  }

  /** The fields of what child x wrote, if that is a JSON object. */
  ghost predicate Contributes(codec: Codec, outputs: map<Id, Bytes>, x: Id, key: string) {
    var v := codec.parse(Wrote(outputs, x)); v.Some? && v.value.Obj? && key in v.value.fields
  }

  /** No child after the k-th has the key. */
  ghost predicate IsLastWith(codec: Codec, outputs: map<Id, Bytes>, kids: seq<Id>, k: int, key: string) {
    && 0 <= k < |kids| && Contributes(codec, outputs, kids[k], key)
    && forall l :: k < l < |kids| ==> !Contributes(codec, outputs, kids[l], key)
  }

  /** With json_merge the input is an object: its keys are those of the children's objects, and
      each has the value of the last child that has the key. */
  lemma MergeInput(codec: Codec, jobs: map<Id, JobDef>, fm: map<Id, seq<Id>>, outputs: map<Id, Bytes>, j: Id)
    returns (fields: map<string, Json>)
    requires FansIn(jobs, fm, j) && jobs[j].reduce == Some(JsonMerge)
    ensures FaninInput(codec, jobs, fm, outputs, j) == codec.render(Obj(fields))
    ensures RoundTrips(codec) ==>
        var input := FaninInput(codec, jobs, fm, outputs, j);
        input.Some? && codec.parse(input.value) == Some(Obj(fields))
    ensures forall key :: key in fields <==>
        exists k :: 0 <= k < |KidsOf(jobs, fm, j)| && Contributes(codec, outputs, KidsOf(jobs, fm, j)[k], key)
    ensures forall key, k :: IsLastWith(codec, outputs, KidsOf(jobs, fm, j), k, key) ==>
        key in fields && fields[key] == codec.parse(Wrote(outputs, KidsOf(jobs, fm, j)[k])).value.fields[key]
  {
    var kids := KidsOf(jobs, fm, j);
    var raws := RawOutputs(kids, outputs);
    fields := Merged(codec, raws);
    forall k, key | 0 <= k < |kids|
      ensures Contributes(codec, outputs, kids[k], key) <==> key in FieldsOf(codec, raws[k])
    {
    }
    forall key | key in fields ensures exists k :: 0 <= k < |kids| && Contributes(codec, outputs, kids[k], key) {
      var i := MergedKeyHasWriter(codec, raws, key);
      assert Contributes(codec, outputs, kids[i], key);
    }
    forall key, k | 0 <= k < |kids| && Contributes(codec, outputs, kids[k], key) ensures key in fields {
      KeyIsMerged(codec, raws, key, k);
    }
    forall key, k | IsLastWith(codec, outputs, kids, k, key)
      ensures key in fields && fields[key] == codec.parse(Wrote(outputs, kids[k])).value.fields[key]
    {
      LastWriterWins(codec, raws, key, k);
    }
  }

  lemma {:induction false} KeyIsMerged(codec: Codec, raws: seq<Bytes>, key: string, i: nat)
    requires i < |raws| && key in FieldsOf(codec, raws[i])
    ensures key in Merged(codec, raws)
  {
    hide FieldsOf;
    if i < |raws| - 1 { KeyIsMerged(codec, raws[..|raws| - 1], key, i); }
  }

  /** With concat: the k-th child's bytes stand between those of the earlier and those of
      the later children. */
  lemma {:induction false} ConcatInChildOrder(raws: seq<Bytes>, k: nat)
    requires k < |raws|
    ensures Flatten(raws) == Flatten(raws[..k]) + raws[k] + Flatten(raws[k + 1..])
  {
    if k == 0 {
      assert Flatten(raws[..0]) == "";
    } else {
      ConcatInChildOrder(raws[1..], k - 1);
      assert raws[..k][1..] == raws[1..][..k - 1];
      assert raws[1..][k - 1 + 1..] == raws[k + 1..];
    }
  }

  /** The merge is shallow and the child with the highest index wins each key. */
  lemma {:induction false} LastWriterWins(codec: Codec, raws: seq<Bytes>, key: string, i: nat)
    requires i < |raws| && key in FieldsOf(codec, raws[i])
    requires forall k :: i < k < |raws| ==> key !in FieldsOf(codec, raws[k])
    ensures key in Merged(codec, raws) && Merged(codec, raws)[key] == FieldsOf(codec, raws[i])[key]
  {
    hide FieldsOf;
    if i < |raws| - 1 { LastWriterWins(codec, raws[..|raws| - 1], key, i); }
  }

  /** And no key comes from anywhere else. */
  lemma {:induction false} MergedKeyHasWriter(codec: Codec, raws: seq<Bytes>, key: string) returns (i: nat)
    requires key in Merged(codec, raws)
    ensures i < |raws| && key in FieldsOf(codec, raws[i])
    ensures forall k :: i < k < |raws| ==> key !in FieldsOf(codec, raws[k])
  {
    hide FieldsOf;
    i := |raws| - 1;
    if key !in FieldsOf(codec, raws[i]) { i := MergedKeyHasWriter(codec, raws[..i], key); }
  }

  // -- The merge, compared with a deep one -----------------------------------

  /** Two objects are merged key by key, however deep; otherwise the later value wins. */
  function Deep(a: Json, b: Json): Json
    decreases a
  {
    if a.Obj? && b.Obj? then
      Obj(map k | k in a.fields.Keys + b.fields.Keys ::
        if k in a.fields && k in b.fields then Deep(a.fields[k], b.fields[k])
        else if k in b.fields then b.fields[k] else a.fields[k])
    else b
  }

  function DeepFields(a: map<string, Json>, b: map<string, Json>): map<string, Json> {
    map k | k in a.Keys + b.Keys ::
      if k in a && k in b then Deep(a[k], b[k]) else if k in b then b[k] else a[k]
  }

  function DeepMerged(codec: Codec, raws: seq<Bytes>): map<string, Json> {
    if raws == [] then map[]
    else DeepFields(DeepMerged(codec, raws[..|raws| - 1]), FieldsOf(codec, raws[|raws| - 1]))
  }

  /** Replacing a by b loses nothing a deep merge would keep. */
  ghost predicate Covers(a: Json, b: Json)
    decreases a
  {
    a.Obj? && b.Obj? ==> forall k :: k in a.fields ==> k in b.fields && Covers(a.fields[k], b.fields[k])
  }

  lemma {:induction false} DeepIsLast(a: Json, b: Json)
    ensures Deep(a, b) == b <==> Covers(a, b)
    decreases a
  {
    if a.Obj? && b.Obj? {
      forall k | k in a.fields && k in b.fields
        ensures Deep(a.fields[k], b.fields[k]) == b.fields[k] <==> Covers(a.fields[k], b.fields[k])
      {
        DeepIsLast(a.fields[k], b.fields[k]);
      }
      var d := Deep(a, b).fields;
      if Covers(a, b) { assert d == b.fields; }
      if d == b.fields {
        forall k | k in a.fields ensures k in b.fields && Covers(a.fields[k], b.fields[k]) { assert k in d; }
      }
    }
  }

  ghost predicate LastWriter(codec: Codec, raws: seq<Bytes>, key: string, i: nat) {
    && i < |raws| && key in FieldsOf(codec, raws[i])
    && forall k :: i < k < |raws| ==> key !in FieldsOf(codec, raws[k])
  }

  lemma {:induction false} DeepLastWriter(codec: Codec, raws: seq<Bytes>, key: string, i: nat)
    requires LastWriter(codec, raws, key, i)
    ensures var before, v := DeepMerged(codec, raws[..i]), FieldsOf(codec, raws[i])[key];
            key in DeepMerged(codec, raws) && DeepMerged(codec, raws)[key] ==
                          if key in before then Deep(before[key], v) else v
  {
    hide FieldsOf, Deep;
    if i < |raws| - 1 {
      assert raws[..|raws| - 1][..i] == raws[..i];
      DeepLastWriter(codec, raws[..|raws| - 1], key, i);
    }
  }

  lemma {:induction false} SameMergedKeys(codec: Codec, raws: seq<Bytes>)
    ensures Merged(codec, raws).Keys == DeepMerged(codec, raws).Keys
  {
    hide FieldsOf, Deep;
    if raws != [] { SameMergedKeys(codec, raws[..|raws| - 1]); }
  }

  /** The code's merge is the deep merge exactly if, for every key, the last child that has
      it covers whatever a deep merge of the earlier children would have there. */
  lemma ShallowIsDeepExactly(codec: Codec, raws: seq<Bytes>)
    ensures Merged(codec, raws) == DeepMerged(codec, raws) <==>
        forall key, i: nat :: LastWriter(codec, raws, key, i) && key in DeepMerged(codec, raws[..i])
          ==> Covers(DeepMerged(codec, raws[..i])[key], FieldsOf(codec, raws[i])[key])
  {
    hide FieldsOf, Deep, Covers, Merged, DeepMerged;
    SameMergedKeys(codec, raws);
    forall key, i: nat | LastWriter(codec, raws, key, i)
      ensures key in Merged(codec, raws) && key in DeepMerged(codec, raws)
      ensures Merged(codec, raws)[key] == DeepMerged(codec, raws)[key] <==>
          (key in DeepMerged(codec, raws[..i]) ==>
              Covers(DeepMerged(codec, raws[..i])[key], FieldsOf(codec, raws[i])[key]))
    {
      LastWriterWins(codec, raws, key, i);
      DeepLastWriter(codec, raws, key, i);
      if key in DeepMerged(codec, raws[..i]) {
        DeepIsLast(DeepMerged(codec, raws[..i])[key], FieldsOf(codec, raws[i])[key]);
      }
    }
    forall key | key in Merged(codec, raws) ensures exists i: nat :: LastWriter(codec, raws, key, i) {
      var i := MergedKeyHasWriter(codec, raws, key);
      assert LastWriter(codec, raws, key, i);
    }
  }

  /** The smallest loss: one child says {"k": {"a": x}}, the next {"k": {"b": y}}. */
  lemma MergeIsShallow(codec: Codec, first: Bytes, second: Bytes, x: Json, y: Json)
    requires codec.parse(first) == Some(Obj(map["k" := Obj(map["a" := x])]))
    requires codec.parse(second) == Some(Obj(map["k" := Obj(map["b" := y])]))
    ensures Merged(codec, [first, second]) == map["k" := Obj(map["b" := y])]
    ensures DeepMerged(codec, [first, second]) == map["k" := Obj(map["a" := x, "b" := y])]
  {
    TwoMerged(codec, first, second);
    hide Merged, DeepMerged;
    var a, b := Obj(map["a" := x]), Obj(map["b" := y]);
    assert FieldsOf(codec, first) == map["k" := a] && FieldsOf(codec, second) == map["k" := b];
    DeepPair(x, y);
    hide FieldsOf, Deep;
    assert DeepFields(map["k" := a], map["k" := b]) == map["k" := Deep(a, b)];
  }

  lemma DeepPair(x: Json, y: Json)
    ensures Deep(Obj(map["a" := x]), Obj(map["b" := y])) == Obj(map["a" := x, "b" := y])
  {
    assert Deep(Obj(map["a" := x]), Obj(map["b" := y])).fields == map["a" := x, "b" := y];
  }

  lemma TwoMerged(codec: Codec, first: Bytes, second: Bytes)
    ensures Merged(codec, [first, second]) == FieldsOf(codec, first) + FieldsOf(codec, second)
    ensures DeepMerged(codec, [first, second]) == DeepFields(FieldsOf(codec, first), FieldsOf(codec, second))
  {
    hide FieldsOf, Deep;
    assert [first, second][..1] == [first] && [first][..0] == [];
    assert Merged(codec, [first]) == FieldsOf(codec, first) && DeepMerged(codec, [first]) == FieldsOf(codec, first);
  }

  /** Only the outputs of the source's children matter. */
  lemma FaninInputLocal(codec: Codec, jobs: map<Id, JobDef>, fm: map<Id, seq<Id>>,
                        outputs: map<Id, Bytes>, outputs': map<Id, Bytes>, j: Id)
    requires forall src, x :: j in jobs && jobs[j].inputFrom == Some(src) && src in fm && x in fm[src] ==>
                   (x in outputs <==> x in outputs') && (x in outputs ==> outputs[x] == outputs'[x])
    ensures FaninInput(codec, jobs, fm, outputs, j) == FaninInput(codec, jobs, fm, outputs', j)
  {
    if j in jobs && jobs[j].inputFrom.Some? && jobs[j].inputFrom.value in fm {
      var children := fm[jobs[j].inputFrom.value];
      assert RawOutputs(children, outputs) == RawOutputs(children, outputs');
    }
  }
}
