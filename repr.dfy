/** The string `AssetMetadata.__repr__` builds with `str.format`: a template of
    literal text and numbered placeholders, filled from eight positional
    arguments (the key and the seven attributes, already rendered). */
module AssetRepr {
  import opened Values

  /** A piece of a format string: literal text or a `{index}` placeholder. */
  datatype Segment = Lit(text: string) | Field(index: nat)

  /** `template.format(*args)`: every placeholder is replaced by the argument
      it numbers; a placeholder past the last argument raises `IndexError`. */
  function Format(template: seq<Segment>, args: seq<string>): Result<string>
    decreases |template|
  {
    if template == [] then Ok("")
    else
      var rest := Format(template[1..], args);
      match template[0]
      case Lit(text) =>
        if rest.Ok? then Ok(text + rest.value) else rest
      case Field(i) =>
        if i >= |args| then Err(IndexError)
        else if rest.Ok? then Ok(args[i] + rest.value) else rest
  }

  /** `', '{first}', '{first+1}'...`: `count` placeholders numbered from
      `first`, each behind the separator the repr puts between arguments. */
  function Slots(first: nat, count: nat): seq<Segment>
    decreases count
  {
    if count == 0 then [] else [Lit("', '"), Field(first)] + Slots(first + 1, count - 1)
  }

  /** `AssetMetadata('{f}', '{f+1}', ..., '{f+7}')`: the repr template whose
      eight placeholders are numbered from `first`. */
  function ReprTemplate(first: nat): seq<Segment> {
    [Lit("AssetMetadata('"), Field(first)] + Slots(first + 1, 7) + [Lit("')")]
  }

  /** The text `Slots(first, count)` stands for once filled: the arguments
      `first` to `first + count - 1`, each behind the separator. */
  function Listed(args: seq<string>, first: nat, count: nat): string
    requires first + count <= |args|
    decreases count
  {
    if count == 0 then "" else "', '" + args[first] + Listed(args, first + 1, count - 1)
  }

  /** `Format` raises exactly when some placeholder is past the last
      argument, and then the exception is `IndexError`. */
  lemma {:induction false} FormatRaises(template: seq<Segment>, args: seq<string>)
    ensures Format(template, args).Ok? <==>
      forall i :: 0 <= i < |template| && template[i].Field? ==> template[i].index < |args|
    ensures Format(template, args).Err? ==> Format(template, args).error == IndexError
    decreases |template|
  {
    if template != [] {
      FormatRaises(template[1..], args);
      if !Format(template, args).Ok? && Format(template[1..], args).Err? {
        var i :| 0 <= i < |template[1..]| && template[1..][i].Field? && template[1..][i].index >= |args|;
        assert template[i + 1] == template[1..][i];
      }
    }
  }

  /** Formatting two templates one after the other: the result succeeds
      when both parts do, and is then the two texts joined. */
  lemma {:induction false} FormatAppend(t1: seq<Segment>, t2: seq<Segment>, args: seq<string>)
    ensures Format(t1 + t2, args).Ok? <==> Format(t1, args).Ok? && Format(t2, args).Ok?
    ensures Format(t1 + t2, args).Ok? ==>
      Format(t1 + t2, args).value == Format(t1, args).value + Format(t2, args).value
    decreases |t1|
  {
    if t1 == [] {
      assert t1 + t2 == t2;
    } else {
      assert (t1 + t2)[1..] == t1[1..] + t2;
      FormatAppend(t1[1..], t2, args);
    }
  }

  /** As written, the placeholders run from `{1}` to `{8}` while the eight
      arguments are numbered 0 to 7: `__repr__` always raises. */
  lemma ReprAsWrittenRaises(args: seq<string>)
    requires |args| == 8
    ensures Format(ReprTemplate(1), args) == Err(IndexError)
  {
    var t := ReprTemplate(1);
    FormatRaises(t, args);
    var s8 := Slots(8, 1);
    assert s8[1] == Field(8);
    var t' := [Lit("AssetMetadata('"), Field(1)] + Slots(2, 6);
    assert Slots(2, 7) == Slots(2, 6) + s8 by { SlotsSplit(2, 6); }
    assert t == t' + s8 + [Lit("')")];
    assert t[|t'| + 1] == Field(8);
  }

  /** The last placeholder of a run can be split off. */
  lemma {:induction false} SlotsSplit(first: nat, count: nat)
    ensures Slots(first, count + 1) == Slots(first, count) + Slots(first + count, 1)
    decreases count
  {
    if count > 0 {
      SlotsSplit(first + 1, count - 1);
    }
  }

  /** Literal text followed by one placeholder in range. */
  lemma FormatPair(text: string, i: nat, args: seq<string>)
    requires i < |args|
    ensures Format([Lit(text), Field(i)], args) == Ok(text + args[i])
  {
    var t := [Lit(text), Field(i)];
    assert t[1..] == [Field(i)];
    assert [Field(i)][1..] == [];
    assert Format([], args) == Ok("");
    assert Format([Field(i)], args) == Ok(args[i] + "");
    assert args[i] + "" == args[i];
    assert Format(t, args) == Ok(text + Format(t[1..], args).value);
  }

  /** A run of placeholders that stays within the arguments fills in
      without raising, with those arguments in order. */
  lemma {:induction false} FormatSlots(args: seq<string>, first: nat, count: nat)
    requires first + count <= |args|
    ensures Format(Slots(first, count), args) == Ok(Listed(args, first, count))
    decreases count
  {
    if count > 0 {
      FormatSlots(args, first + 1, count - 1);
      var head := [Lit("', '"), Field(first)];
      FormatPair("', '", first, args);
      FormatAppend(head, Slots(first + 1, count - 1), args);
    }
  }

  /** Numbered from `{0}`, the template uses all eight arguments in order
      and never raises. */
  lemma ReprFromZero(args: seq<string>)
    requires |args| == 8
    ensures Format(ReprTemplate(0), args) == Ok("AssetMetadata('" + args[0] + Listed(args, 1, 7) + "')")
  {
    var head := [Lit("AssetMetadata('"), Field(0)];
    var tail := [Lit("')")];
    FormatPair("AssetMetadata('", 0, args);
    assert Format(tail, args) == Ok("')") by {
      assert tail[1..] == [];
      assert "')" + "" == "')";
    }
    FormatSlots(args, 1, 7);
    FormatAppend(head, Slots(1, 7), args);
    FormatAppend(head + Slots(1, 7), tail, args);
  }
}
