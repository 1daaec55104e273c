/** The Fudge message form of a volatility surface. The message holds the
    currency, the two names, one "xs" field per x and one "ys" field per y
    in axis order, and one "values" sub-message (x, y, value) per entry of
    the value map. Decoding reads the axes back in order and rebuilds the
    map only when both axes are non-empty, the last of several entries for
    the same pair winning. */
module VolatilitySurfaceBuilder {
  import opened Common
  import opened VolatilitySurface

  /** A field value: the kinds of value the surface's message holds, with
      an axis value carried as it is rather than as its own encoding. */
  datatype FieldValue<X, Y> =
    | StringValue(s: string)
    | CurrencyValue(c: Currency)
    | XValue(x: X)
    | YValue(y: Y)
    | DoubleValue(d: real)
    | MessageValue(fields: seq<Field<X, Y>>)

  /** A named field; a message is the sequence of its fields. */
  datatype Field<X, Y> = Field(name: string, value: FieldValue<X, Y>)

  // ---------------------------------------------------------------------
  // Encoding

  function Header<X(==), Y(==)>(s: Surface<X, Y>): seq<Field<X, Y>> {
    [Field("currency", CurrencyValue(s.currency)),
     Field("definitionName", StringValue(s.definitionName)),
     Field("specificationName", StringValue(s.specificationName))]
  }

  function XsFields<X, Y>(xs: seq<X>): (r: seq<Field<X, Y>>)
    ensures |r| == |xs|
  {
    if xs == [] then [] else XsFields(xs[..|xs| - 1]) + [Field("xs", XValue(xs[|xs| - 1]))]
  }

  function YsFields<X, Y>(ys: seq<Y>): (r: seq<Field<X, Y>>)
    ensures |r| == |ys|
  {
    if ys == [] then [] else YsFields(ys[..|ys| - 1]) + [Field("ys", YValue(ys[|ys| - 1]))]
  }

  /** The sub-message for one entry of the value map. */
  function EntryField<X, Y>(key: (X, Y), value: real): Field<X, Y> {
    Field("values", MessageValue([Field("x", XValue(key.0)), Field("y", YValue(key.1)), Field("value", DoubleValue(value))]))
  }

  function EntryFields<X(==), Y(==)>(order: seq<(X, Y)>, values: map<(X, Y), real>): (r: seq<Field<X, Y>>)
    requires forall k :: k in order ==> k in values
    ensures |r| == |order|
  {
    if order == [] then []
    else EntryFields(order[..|order| - 1], values) + [EntryField(order[|order| - 1], values[order[|order| - 1]])]
  }

  /** `order` lists every key of the map exactly once. */
  ghost predicate Enumerates<K>(order: seq<K>, keys: set<K>) {
    (forall i, j :: 0 <= i < j < |order| ==> order[i] != order[j])
    && (forall i | 0 <= i < |order| :: order[i] in keys)
    && (forall k | k in keys :: k in order)
  }

  /** The message for `s` when the map's entries are visited in `order`. */
  ghost predicate IsEncoding<X, Y>(m: seq<Field<X, Y>>, s: Surface<X, Y>, order: seq<(X, Y)>) {
    Enumerates(order, s.values.Keys)
    && m == Header(s) + XsFields(s.xs) + YsFields(s.ys) + EntryFields(order, s.values)
  }

  /** Builds the message: header fields, then the axes, then one
      sub-message per map entry, in whatever order the map yields them. */
  method BuildMessage<X(==), Y(==)>(s: Surface<X, Y>) returns (m: seq<Field<X, Y>>, ghost order: seq<(X, Y)>)
    ensures IsEncoding(m, s, order)
    ensures |order| == |s.values|
  {
    var xsFields := AddXs<X, Y>(s.xs);
    var ysFields := AddYs<X, Y>(s.ys);
    var entries;
    entries, order := AddEntries(s.values);
    m := Header(s) + xsFields + ysFields + entries;
  }

  /** One "xs" field per x, in axis order. */
  method AddXs<X, Y>(xs: seq<X>) returns (m: seq<Field<X, Y>>)
    ensures m == XsFields(xs)
  {
    m := [];
    for i := 0 to |xs|
      invariant m == XsFields(xs[..i])
    {
      assert xs[..i + 1][..i] == xs[..i];
      m := m + [Field("xs", XValue(xs[i]))];
    }
    assert xs[..|xs|] == xs;
  }

  /** One "ys" field per y, in axis order. */
  method AddYs<X, Y>(ys: seq<Y>) returns (m: seq<Field<X, Y>>)
    ensures m == YsFields(ys)
  {
    m := [];
    for j := 0 to |ys|
      invariant m == YsFields(ys[..j])
    {
      assert ys[..j + 1][..j] == ys[..j];
      m := m + [Field("ys", YValue(ys[j]))];
    }
    assert ys[..|ys|] == ys;
  }

  /** One "values" sub-message per entry of the map; `order` records the
      order in which the keys were visited. */
  method AddEntries<X(==), Y(==)>(values: map<(X, Y), real>) returns (m: seq<Field<X, Y>>, ghost order: seq<(X, Y)>)
    ensures Enumerates(order, values.Keys)
    ensures |order| == |values|
    ensures m == EntryFields(order, values)
  {
    var remaining := values.Keys;
    m := [];
    order := [];
    while remaining != {}
      invariant forall k :: k in remaining ==> k in values && k !in order
      invariant forall k :: k in values ==> k in remaining || k in order
      invariant forall k :: k in order ==> k in values
      invariant forall i, j :: 0 <= i < j < |order| ==> order[i] != order[j]
      invariant |order| + |remaining| == |values|
      invariant m == EntryFields(order, values)
      decreases |remaining|
    {
      var key :| key in remaining;
      EntryFieldsSnoc(order, key, values);
      m := m + [EntryField(key, values[key])];
      order := order + [key];
      remaining := remaining - {key};
    }
  }

  lemma EntryFieldsSnoc<X, Y>(order: seq<(X, Y)>, key: (X, Y), values: map<(X, Y), real>)
    requires forall k :: k in order ==> k in values
    requires key in values
    ensures forall k :: k in order + [key] ==> k in values
    ensures EntryFields(order + [key], values) == EntryFields(order, values) + [EntryField(key, values[key])]
  {
    assert (order + [key])[..|order|] == order;
  }

  // ---------------------------------------------------------------------
  // Decoding

  /** Field i is the first field with the given name. */
  predicate IsFirstNamed<X, Y>(m: seq<Field<X, Y>>, name: string, i: int) {
    0 <= i < |m| && m[i].name == name && forall j :: 0 <= j < i ==> m[j].name != name
  }

  /** The value of the first field with the given name. */
  function FirstNamed<X, Y>(m: seq<Field<X, Y>>, name: string): (r: Option<FieldValue<X, Y>>)
    ensures r.Some? <==> exists i :: 0 <= i < |m| && m[i].name == name
    ensures forall i :: IsFirstNamed(m, name, i) ==> r == Some(m[i].value)
  {
    if m == [] then None
    else if m[0].name == name then Some(m[0].value)
    else
      var rest := FirstNamed(m[1..], name);
      assert forall i :: 0 < i < |m| ==> m[i] == m[1..][i - 1];
      assert forall i :: IsFirstNamed(m, name, i) ==> IsFirstNamed(m[1..], name, i - 1);
      rest
  }

  /** A string field; a missing or non-string field reads as null. */
  function StringField<X, Y>(m: seq<Field<X, Y>>, name: string): Option<string> {
    match FirstNamed(m, name)
    case Some(StringValue(s)) => Some(s)
    case _ => None
  }

  function CurrencyField<X, Y>(m: seq<Field<X, Y>>): Option<Currency> {
    match FirstNamed(m, "currency")
    case Some(CurrencyValue(c)) => Some(c)
    case _ => None
  }

  /** The x axis: every "xs" field in message order. */
  function XsOf<X, Y>(m: seq<Field<X, Y>>): Result<seq<X>> {
    if m == [] then Ok([])
    else
      match XsOf(m[..|m| - 1])
      case Err(e) => Err(e)
      case Ok(xs) =>
        var last := m[|m| - 1];
        if last.name != "xs" then Ok(xs)
        else if last.value.XValue? then Ok(xs + [last.value.x])
        else Err("xs field does not hold an x value")
  }

  /** The y axis: every "ys" field in message order. */
  function YsOf<X, Y>(m: seq<Field<X, Y>>): Result<seq<Y>> {
    if m == [] then Ok([])
    else
      match YsOf(m[..|m| - 1])
      case Err(e) => Err(e)
      case Ok(ys) =>
        var last := m[|m| - 1];
        if last.name != "ys" then Ok(ys)
        else if last.value.YValue? then Ok(ys + [last.value.y])
        else Err("ys field does not hold a y value")
  }

  /** One entry from a "values" sub-message: its first "x", "y" and "value"
      fields. */
  function DecodeEntry<X, Y>(sub: seq<Field<X, Y>>): Result<((X, Y), real)> {
    match (FirstNamed(sub, "x"), FirstNamed(sub, "y"), FirstNamed(sub, "value"))
    case (Some(XValue(x)), Some(YValue(y)), Some(DoubleValue(v))) => Ok(((x, y), v))
    case _ => Err("values entry is incomplete")
  }

  /** The value map: every "values" field in message order, a later entry
      replacing an earlier one for the same pair. */
  function ValuesOf<X(==), Y(==)>(m: seq<Field<X, Y>>): Result<map<(X, Y), real>> {
    if m == [] then Ok(map[])
    else
      match ValuesOf(m[..|m| - 1])
      case Err(e) => Err(e)
      case Ok(values) =>
        var last := m[|m| - 1];
        if last.name != "values" then Ok(values)
        else if !last.value.MessageValue? then Err("values field does not hold a sub-message")
        else
          match DecodeEntry(last.value.fields)
          case Err(e) => Err(e)
          case Ok(entry) => Ok(values[entry.0 := entry.1])
  }

  /** The decoded surface. With an empty axis the "values" fields are not
      read at all and the map is empty. */
  function Decode<X(==), Y(==)>(m: seq<Field<X, Y>>): Result<Surface<X, Y>> {
    var currency := CurrencyField(m);
    var definitionName := StringField(m, "definitionName");
    var specificationName := StringField(m, "specificationName");
    match XsOf(m)
    case Err(e) => Err(e)
    case Ok(xs) =>
      match YsOf(m)
      case Err(e) => Err(e)
      case Ok(ys) =>
        if |xs| > 0 && |ys| > 0 then
          match ValuesOf(m)
          case Err(e) => Err(e)
          case Ok(values) => Create(definitionName, specificationName, currency, Some(xs), Some(ys), Some(values))
        else Create(definitionName, specificationName, currency, Some(xs), Some(ys), Some(map[]))
  }

  /** An error in a prefix is the error of the whole message. */
  lemma {:induction false} XsErrorPersists<X, Y>(m: seq<Field<X, Y>>, i: nat)
    requires i <= |m| && XsOf(m[..i]).Err?
    ensures XsOf(m) == XsOf(m[..i])
    decreases |m| - i
  {
    if i < |m| {
      assert m[..i + 1][..i] == m[..i];
      XsErrorPersists(m, i + 1);
    } else {
      assert m[..i] == m;
    }
  }

  lemma {:induction false} YsErrorPersists<X, Y>(m: seq<Field<X, Y>>, i: nat)
    requires i <= |m| && YsOf(m[..i]).Err?
    ensures YsOf(m) == YsOf(m[..i])
    decreases |m| - i
  {
    if i < |m| {
      assert m[..i + 1][..i] == m[..i];
      YsErrorPersists(m, i + 1);
    } else {
      assert m[..i] == m;
    }
  }

  lemma {:induction false} ValuesErrorPersists<X, Y>(m: seq<Field<X, Y>>, i: nat)
    requires i <= |m| && ValuesOf(m[..i]).Err?
    ensures ValuesOf(m) == ValuesOf(m[..i])
    decreases |m| - i
  {
    if i < |m| {
      assert m[..i + 1][..i] == m[..i];
      ValuesErrorPersists(m, i + 1);
    } else {
      assert m[..i] == m;
    }
  }

  /** Reads the x axis: one pass over the "xs" fields. */
  method ReadXs<X, Y>(m: seq<Field<X, Y>>) returns (r: Result<seq<X>>)
    ensures r == XsOf(m)
  {
    var xs: seq<X> := [];
    var i := 0;
    while i < |m|
      invariant 0 <= i <= |m|
      invariant XsOf(m[..i]) == Ok(xs)
    {
      assert m[..i + 1][..i] == m[..i];
      if m[i].name == "xs" {
        if !m[i].value.XValue? {
          XsErrorPersists(m, i + 1);
          return Err("xs field does not hold an x value");
        }
        xs := xs + [m[i].value.x];
      }
      i := i + 1;
    }
    assert m[..|m|] == m;
    r := Ok(xs);
  }

  /** Reads the y axis: one pass over the "ys" fields. */
  method ReadYs<X, Y>(m: seq<Field<X, Y>>) returns (r: Result<seq<Y>>)
    ensures r == YsOf(m)
  {
    var ys: seq<Y> := [];
    var i := 0;
    while i < |m|
      invariant 0 <= i <= |m|
      invariant YsOf(m[..i]) == Ok(ys)
    {
      assert m[..i + 1][..i] == m[..i];
      if m[i].name == "ys" {
        if !m[i].value.YValue? {
          YsErrorPersists(m, i + 1);
          return Err("ys field does not hold a y value");
        }
        ys := ys + [m[i].value.y];
      }
      i := i + 1;
    }
    assert m[..|m|] == m;
    r := Ok(ys);
  }

  /** Reads the value map: one pass over the "values" sub-messages, each
      entry put into the map in turn. */
  method ReadValues<X(==), Y(==)>(m: seq<Field<X, Y>>) returns (r: Result<map<(X, Y), real>>)
    ensures r == ValuesOf(m)
  {
    var values: map<(X, Y), real> := map[];
    var i := 0;
    while i < |m|
      invariant 0 <= i <= |m|
      invariant ValuesOf(m[..i]) == Ok(values)
    {
      assert m[..i + 1][..i] == m[..i];
      if m[i].name == "values" {
        if !m[i].value.MessageValue? {
          ValuesErrorPersists(m, i + 1);
          return Err("values field does not hold a sub-message");
        }
        var entry := DecodeEntry(m[i].value.fields);
        if entry.Err? {
          ValuesErrorPersists(m, i + 1);
          return Err(entry.message);
        }
        values := values[entry.value.0 := entry.value.1];
      }
      i := i + 1;
    }
    assert m[..|m|] == m;
    r := Ok(values);
  }

  /** Reads the surface back: the named fields, the two axes and, only when
      both axes are non-empty, the value map. */
  method BuildObject<X(==), Y(==)>(m: seq<Field<X, Y>>) returns (r: Result<Surface<X, Y>>)
    ensures r == Decode(m)
  {
    var currency := CurrencyField(m);
    var definitionName := StringField(m, "definitionName");
    var specificationName := StringField(m, "specificationName");
    var xs := ReadXs(m);
    if xs.Err? {
      return Err(xs.message);
    }
    var ys := ReadYs(m);
    if ys.Err? {
      return Err(ys.message);
    }
    if |xs.value| > 0 && |ys.value| > 0 {
      var values := ReadValues(m);
      if values.Err? {
        return Err(values.message);
      }
      r := Create(definitionName, specificationName, currency, Some(xs.value), Some(ys.value), Some(values.value));
    } else {
      r := Create(definitionName, specificationName, currency, Some(xs.value), Some(ys.value), Some(map[]));
    }
  }

  // ---------------------------------------------------------------------
  // Properties

  /** The field names the surface's message uses are all different. */
  lemma FieldNamesDistinct()
    ensures "xs" != "ys" && "xs" != "values" && "ys" != "values"
    ensures "currency" != "xs" && "currency" != "ys" && "currency" != "values"
    ensures "definitionName" != "xs" && "definitionName" != "ys" && "definitionName" != "values"
    ensures "specificationName" != "xs" && "specificationName" != "ys" && "specificationName" != "values"
    ensures "currency" != "definitionName" && "currency" != "specificationName" && "definitionName" != "specificationName"
    ensures "x" != "y" && "x" != "value" && "y" != "value"
  {
    assert "xs"[0] != "ys"[0];
    assert |"xs"| != |"values"| && |"ys"| != |"values"|;
    assert |"currency"| != |"xs"| && |"currency"| != |"values"|;
    assert |"definitionName"| != |"xs"| && |"definitionName"| != |"values"|;
    assert |"specificationName"| != |"xs"| && |"specificationName"| != |"values"|;
    assert |"currency"| != |"definitionName"| && |"currency"| != |"specificationName"|;
    assert |"definitionName"| != |"specificationName"|;
    assert "x"[0] != "y"[0] && |"x"| != |"value"|;
  }

  /** No field of `m` carries the name. */
  predicate NoneNamed<X, Y>(m: seq<Field<X, Y>>, name: string) {
    forall k | 0 <= k < |m| :: m[k].name != name
  }

  /** Every field of `m` carries the name. */
  predicate AllNamed<X, Y>(m: seq<Field<X, Y>>, name: string) {
    forall k | 0 <= k < |m| :: m[k].name == name
  }

  lemma NoneNamedAppend<X, Y>(a: seq<Field<X, Y>>, b: seq<Field<X, Y>>, name: string)
    requires NoneNamed(a, name) && NoneNamed(b, name)
    ensures NoneNamed(a + b, name)
  {
    assert forall k | |a| <= k < |a + b| :: (a + b)[k] == b[k - |a|];
  }

  lemma {:induction false} XsFieldsNamed<X, Y>(xs: seq<X>)
    ensures AllNamed(XsFields<X, Y>(xs), "xs")
    decreases |xs|
  {
    if xs != [] {
      XsFieldsNamed<X, Y>(xs[..|xs| - 1]);
    }
  }

  lemma {:induction false} YsFieldsNamed<X, Y>(ys: seq<Y>)
    ensures AllNamed(YsFields<X, Y>(ys), "ys")
    decreases |ys|
  {
    if ys != [] {
      YsFieldsNamed<X, Y>(ys[..|ys| - 1]);
    }
  }

  lemma {:induction false} EntryFieldsNamed<X, Y>(order: seq<(X, Y)>, values: map<(X, Y), real>)
    requires forall k :: k in order ==> k in values
    ensures AllNamed(EntryFields(order, values), "values")
    decreases |order|
  {
    if order != [] {
      assert forall k :: k in order[..|order| - 1] ==> k in order;
      EntryFieldsNamed(order[..|order| - 1], values);
    }
  }

  /** The header holds neither axis nor map fields. */
  lemma HeaderNames<X, Y>(s: Surface<X, Y>)
    ensures NoneNamed(Header(s), "xs") && NoneNamed(Header(s), "ys") && NoneNamed(Header(s), "values")
  {
    FieldNamesDistinct();
  }

  /** An entry's sub-message decodes to the pair and the value it was
      written from. */
  lemma EntryReadsBack<X, Y>(key: (X, Y), v: real)
    ensures DecodeEntry(EntryField(key, v).value.fields) == Ok((key, v))
  {
    var sub := EntryField(key, v).value.fields;
    FieldNamesDistinct();
    assert sub[1..] == [Field("y", YValue(key.1)), Field("value", DoubleValue(v))];
    assert sub[1..][1..] == [Field("value", DoubleValue(v))];
    assert FirstNamed(sub, "x") == Some(XValue(key.0));
    assert FirstNamed(sub[1..], "y") == Some(YValue(key.1));
    assert FirstNamed(sub, "y") == Some(YValue(key.1));
    assert FirstNamed(sub[1..][1..], "value") == Some(DoubleValue(v));
    assert FirstNamed(sub[1..], "value") == Some(DoubleValue(v));
    assert FirstNamed(sub, "value") == Some(DoubleValue(v));
  }

  /** Appending fields of other names leaves the x axis alone. */
  lemma {:induction false} XsOfIgnoresOthers<X, Y>(p: seq<Field<X, Y>>, q: seq<Field<X, Y>>)
    requires NoneNamed(q, "xs")
    ensures XsOf(p + q) == XsOf(p)
    decreases |q|
  {
    if q != [] {
      var q' := q[..|q| - 1];
      assert (p + q)[..|p + q| - 1] == p + q';
      XsOfIgnoresOthers(p, q');
    } else {
      assert p + q == p;
    }
  }

  lemma {:induction false} YsOfIgnoresOthers<X, Y>(p: seq<Field<X, Y>>, q: seq<Field<X, Y>>)
    requires NoneNamed(q, "ys")
    ensures YsOf(p + q) == YsOf(p)
    decreases |q|
  {
    if q != [] {
      var q' := q[..|q| - 1];
      assert (p + q)[..|p + q| - 1] == p + q';
      YsOfIgnoresOthers(p, q');
    } else {
      assert p + q == p;
    }
  }

  lemma {:induction false} ValuesOfIgnoresOthers<X, Y>(p: seq<Field<X, Y>>, q: seq<Field<X, Y>>)
    requires NoneNamed(q, "values")
    ensures ValuesOf(p + q) == ValuesOf(p)
    decreases |q|
  {
    if q != [] {
      var q' := q[..|q| - 1];
      assert (p + q)[..|p + q| - 1] == p + q';
      ValuesOfIgnoresOthers(p, q');
    } else {
      assert p + q == p;
    }
  }

  /** The "xs" fields read back as the axis they were written from. */
  lemma {:induction false} XsFieldsReadBack<X, Y>(p: seq<Field<X, Y>>, xs: seq<X>)
    requires XsOf(p) == Ok([])
    ensures XsOf(p + XsFields(xs)) == Ok(xs)
    decreases |xs|
  {
    if xs != [] {
      var xs' := xs[..|xs| - 1];
      XsFieldsReadBack(p, xs');
      var m := p + XsFields(xs);
      assert m == (p + XsFields(xs')) + [Field("xs", XValue(xs[|xs| - 1]))];
      assert m[..|m| - 1] == p + XsFields(xs');
      assert xs' + [xs[|xs| - 1]] == xs;
    } else {
      assert p + XsFields(xs) == p;
    }
  }

  lemma {:induction false} YsFieldsReadBack<X, Y>(p: seq<Field<X, Y>>, ys: seq<Y>)
    requires YsOf(p) == Ok([])
    ensures YsOf(p + YsFields(ys)) == Ok(ys)
    decreases |ys|
  {
    if ys != [] {
      var ys' := ys[..|ys| - 1];
      YsFieldsReadBack(p, ys');
      var m := p + YsFields(ys);
      assert m == (p + YsFields(ys')) + [Field("ys", YValue(ys[|ys| - 1]))];
      assert m[..|m| - 1] == p + YsFields(ys');
      assert ys' + [ys[|ys| - 1]] == ys;
    } else {
      assert p + YsFields(ys) == p;
    }
  }

  /** Reading one more entry sub-message puts its pair into the map. */
  lemma ValuesOfEntry<X, Y>(p: seq<Field<X, Y>>, key: (X, Y), v: real)
    requires ValuesOf(p).Ok?
    ensures ValuesOf(p + [EntryField(key, v)]) == Ok(ValuesOf(p).value[key := v])
  {
    var m := p + [EntryField(key, v)];
    assert m[..|m| - 1] == p;
    EntryReadsBack(key, v);
  }

  /** The entry sub-messages read back as the map restricted to the keys
      they were written for. */
  lemma {:induction false} EntryFieldsReadBack<X, Y>(p: seq<Field<X, Y>>, order: seq<(X, Y)>,
                                                            values: map<(X, Y), real>)
    requires forall k :: k in order ==> k in values
    requires ValuesOf(p) == Ok(map[])
    ensures ValuesOf(p + EntryFields(order, values)) == Ok(Restrict(values, order))
    decreases |order|
  {
    if order == [] {
      assert p + EntryFields(order, values) == p;
      assert Restrict(values, order) == map[];
    } else {
      var order' := order[..|order| - 1];
      var key := order[|order| - 1];
      assert forall k :: k in order' ==> k in order;
      EntryFieldsReadBack(p, order', values);
      var prev := p + EntryFields(order', values);
      assert p + EntryFields(order, values) == prev + [EntryField(key, values[key])];
      ValuesOfEntry(prev, key, values[key]);
      RestrictLast(order, values);
    }
  }

  /** The entries of the map whose keys occur in `order`. */
  ghost function Restrict<X, Y>(values: map<(X, Y), real>, order: seq<(X, Y)>): map<(X, Y), real> {
    map k | k in order && k in values :: values[k]
  }

  /** Restricting the map to one more key adds that key's entry. */
  lemma RestrictLast<X, Y>(order: seq<(X, Y)>, values: map<(X, Y), real>)
    requires order != [] && order[|order| - 1] in values
    ensures Restrict(values, order) == Restrict(values, order[..|order| - 1])[order[|order| - 1] := values[order[|order| - 1]]]
  {
    var key := order[|order| - 1];
    assert order == order[..|order| - 1] + [key];
    assert forall k :: k in order <==> k in order[..|order| - 1] || k == key;
  }

  /** The header's named fields read back as the surface's names and
      currency, whatever follows them. */
  lemma HeaderReadsBack<X, Y>(s: Surface<X, Y>, rest: seq<Field<X, Y>>)
    ensures CurrencyField(Header(s) + rest) == Some(s.currency)
    ensures StringField(Header(s) + rest, "definitionName") == Some(s.definitionName)
    ensures StringField(Header(s) + rest, "specificationName") == Some(s.specificationName)
  {
    var m := Header(s) + rest;
    FieldNamesDistinct();
    assert m[0] == Field("currency", CurrencyValue(s.currency));
    assert m[1..][0] == Field("definitionName", StringValue(s.definitionName));
    assert m[1..][1..][0] == Field("specificationName", StringValue(s.specificationName));
    assert FirstNamed(m[1..], "definitionName") == Some(StringValue(s.definitionName));
    assert FirstNamed(m[1..][1..], "specificationName") == Some(StringValue(s.specificationName));
    assert FirstNamed(m[1..], "specificationName") == Some(StringValue(s.specificationName));
  }

  /** The x axis of an encoded surface reads back as written. */
  lemma XAxisReadsBack<X, Y>(s: Surface<X, Y>, rest: seq<Field<X, Y>>)
    requires NoneNamed(rest, "xs")
    ensures XsOf(Header(s) + XsFields(s.xs) + rest) == Ok(s.xs)
  {
    var h := Header(s);
    HeaderNames(s);
    XsOfIgnoresOthers([], h);
    assert [] + h == h;
    XsFieldsReadBack(h, s.xs);
    XsOfIgnoresOthers(h + XsFields(s.xs), rest);
  }

  /** The y axis of an encoded surface reads back as written. */
  lemma YAxisReadsBack<X, Y>(s: Surface<X, Y>, rest: seq<Field<X, Y>>)
    requires NoneNamed(rest, "ys")
    ensures YsOf(Header(s) + XsFields(s.xs) + YsFields(s.ys) + rest) == Ok(s.ys)
  {
    var hx := Header(s) + XsFields(s.xs);
    HeaderNames(s);
    FieldNamesDistinct();
    XsFieldsNamed<X, Y>(s.xs);
    NoneNamedAppend(Header(s), XsFields<X, Y>(s.xs), "ys");
    YsOfIgnoresOthers([], hx);
    assert [] + hx == hx;
    YsFieldsReadBack(hx, s.ys);
    YsOfIgnoresOthers(hx + YsFields(s.ys), rest);
  }

  /** The map of an encoded surface reads back as written. */
  lemma ValuesReadBack<X, Y>(s: Surface<X, Y>, order: seq<(X, Y)>)
    requires Enumerates(order, s.values.Keys)
    ensures ValuesOf(Header(s) + XsFields(s.xs) + YsFields(s.ys) + EntryFields(order, s.values)) == Ok(s.values)
  {
    var hx := Header(s) + XsFields(s.xs);
    var hxy := hx + YsFields(s.ys);
    HeaderNames(s);
    FieldNamesDistinct();
    XsFieldsNamed<X, Y>(s.xs);
    YsFieldsNamed<X, Y>(s.ys);
    NoneNamedAppend(Header(s), XsFields<X, Y>(s.xs), "values");
    NoneNamedAppend(hx, YsFields<X, Y>(s.ys), "values");
    ValuesOfIgnoresOthers([], hxy);
    assert [] + hxy == hxy;
    EntryFieldsReadBack(hxy, order, s.values);
    assert Restrict(s.values, order) == s.values;
  }

  /** Decoding an encoded surface gives the surface back, provided the
      map is empty whenever an axis is empty. */
  lemma RoundTrip<X, Y>(m: seq<Field<X, Y>>, s: Surface<X, Y>, order: seq<(X, Y)>)
    requires IsEncoding(m, s, order)
    requires (|s.xs| > 0 && |s.ys| > 0) || s.values == map[]
    ensures Decode(m) == Ok(s)
  {
    EncodedAxesReadBack(m, s, order);
    EncodedHeaderReadsBack(m, s, order);
    if |s.xs| > 0 && |s.ys| > 0 {
      ValuesReadBack(s, order);
    }
    DecodeOfParts(m, s);
  }

  /** Both axes of an encoded surface read back as written. */
  lemma EncodedAxesReadBack<X, Y>(m: seq<Field<X, Y>>, s: Surface<X, Y>, order: seq<(X, Y)>)
    requires IsEncoding(m, s, order)
    ensures XsOf(m) == Ok(s.xs) && YsOf(m) == Ok(s.ys)
  {
    var entries := EntryFields(order, s.values);
    FieldNamesDistinct();
    EntryFieldsNamed(order, s.values);
    YsFieldsNamed<X, Y>(s.ys);
    NoneNamedAppend(YsFields<X, Y>(s.ys), entries, "xs");
    XAxisReadsBack(s, YsFields<X, Y>(s.ys) + entries);
    assert Header(s) + XsFields(s.xs) + (YsFields<X, Y>(s.ys) + entries) == m;
    YAxisReadsBack(s, entries);
  }

  /** The names and the currency of an encoded surface read back as
      written. */
  lemma EncodedHeaderReadsBack<X, Y>(m: seq<Field<X, Y>>, s: Surface<X, Y>, order: seq<(X, Y)>)
    requires IsEncoding(m, s, order)
    ensures CurrencyField(m) == Some(s.currency)
    ensures StringField(m, "definitionName") == Some(s.definitionName)
    ensures StringField(m, "specificationName") == Some(s.specificationName)
  {
    var entries := EntryFields(order, s.values);
    HeaderReadsBack(s, XsFields(s.xs) + YsFields(s.ys) + entries);
    assert Header(s) + (XsFields(s.xs) + YsFields(s.ys) + entries) == m;
  }

  /** Decode assembles the surface from the parts it reads. */
  lemma DecodeOfParts<X, Y>(m: seq<Field<X, Y>>, s: Surface<X, Y>)
    requires XsOf(m) == Ok(s.xs) && YsOf(m) == Ok(s.ys)
    requires CurrencyField(m) == Some(s.currency)
    requires StringField(m, "definitionName") == Some(s.definitionName)
    requires StringField(m, "specificationName") == Some(s.specificationName)
    requires |s.xs| > 0 && |s.ys| > 0 ==> ValuesOf(m) == Ok(s.values)
    requires |s.xs| == 0 || |s.ys| == 0 ==> s.values == map[]
    ensures Decode(m) == Ok(s)
  {
  }

  /** Encoding then decoding returns the surface whenever both axes are
      non-empty or the map is empty. */
  method EncodeDecode<X(==), Y(==)>(s: Surface<X, Y>) returns (r: Result<Surface<X, Y>>)
    requires (|s.xs| > 0 && |s.ys| > 0) || s.values == map[]
    ensures r == Ok(s)
  {
    var m, order := BuildMessage(s);
    RoundTrip(m, s, order);
    r := BuildObject(m);
  }

  /** With an empty axis the decoded map is empty, whatever "values" fields
      the message holds. */
  lemma EmptyAxisDropsValues<X, Y>(m: seq<Field<X, Y>>)
    requires XsOf(m) == Ok([]) || YsOf(m) == Ok([])
    requires Decode(m).Ok?
    ensures Decode(m).value.values == map[]
  {
  }

  /** Of two entries for the same pair, the later one is kept. */
  lemma LastEntryWins<X, Y>(p: seq<Field<X, Y>>, key: (X, Y), first: real, second: real)
    requires ValuesOf(p).Ok?
    ensures ValuesOf(p + [EntryField(key, first), EntryField(key, second)]) == Ok(ValuesOf(p).value[key := second])
  {
    ValuesOfEntry(p, key, first);
    ValuesOfEntry(p + [EntryField(key, first)], key, second);
    assert p + [EntryField(key, first)] + [EntryField(key, second)] == p + [EntryField(key, first), EntryField(key, second)];
    assert ValuesOf(p).value[key := first][key := second] == ValuesOf(p).value[key := second];
  }
}
