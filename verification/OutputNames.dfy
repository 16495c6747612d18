/**
 The order on output names that makes output placement independent of the order in which
 connectors appear.
 */
module OutputNames {
  import opened Options

  datatype Ordering = Less | Equal | Greater
  {
    function Reverse(): Ordering {
      match this
      case Less => Greater
      case Equal => Equal
      case Greater => Less
    }

    function Then(next: Ordering): Ordering {
      if Equal? then next else this
    }
  }

  datatype OutputName = OutputName(
    connector: string,
    make: Option<string>,
    model: Option<string>,
    serial: Option<string>)
  {
    predicate IsUnnamed() {
      make.None? && model.None? && serial.None?
    }
  }

  function CompareStrings(a: string, b: string): Ordering {
    if a == [] then (if b == [] then Equal else Less)
    else if b == [] then Greater
    else if a[0] < b[0] then Less
    else if b[0] < a[0] then Greater
    else CompareStrings(a[1..], b[1..])
  }

  function CompareOptions(a: Option<string>, b: Option<string>): Ordering {
    match (a, b)
    case (None, None) => Equal
    case (None, Some(_)) => Less
    case (Some(_), None) => Greater
    case (Some(x), Some(y)) => CompareStrings(x, y)
  }

  function Compare(a: OutputName, b: OutputName): Ordering {
    match (a.IsUnnamed(), b.IsUnnamed())
    case (true, true) => CompareStrings(a.connector, b.connector)
    case (true, false) => Greater
    case (false, true) => Less
    case (false, false) =>
      CompareOptions(a.make, b.make)
      .Then(CompareOptions(a.model, b.model))
      .Then(CompareOptions(a.serial, b.serial))
      .Then(CompareStrings(a.connector, b.connector))
  }

  lemma {:induction false} StringsOrdered(a: string, b: string)
    ensures CompareStrings(a, b) == Equal <==> a == b
    ensures CompareStrings(b, a) == CompareStrings(a, b).Reverse()
    decreases a
  {
    if a != [] && b != [] {
      StringsOrdered(a[1..], b[1..]);
      assert a == [a[0]] + a[1..] && b == [b[0]] + b[1..];
    }
  }

  lemma {:induction false} StringsTransitive(a: string, b: string, c: string)
    requires CompareStrings(a, b) != Greater && CompareStrings(b, c) != Greater
    ensures CompareStrings(a, c) != Greater
    decreases a
  {
    if a != [] && b != [] && c != [] && a[0] == b[0] && b[0] == c[0] {
      StringsTransitive(a[1..], b[1..], c[1..]);
    }
  }

  // `Compare` is a total order whose ties are equal names only.
  lemma NamesOrdered(a: OutputName, b: OutputName)
    ensures Compare(a, b) == Equal <==> a == b
    ensures Compare(b, a) == Compare(a, b).Reverse()
  {
    StringsOrdered(a.connector, b.connector);
    OptionsOrdered(a.make, b.make);
    OptionsOrdered(a.model, b.model);
    OptionsOrdered(a.serial, b.serial);
  }

  lemma OptionsOrdered(a: Option<string>, b: Option<string>)
    ensures CompareOptions(a, b) == Equal <==> a == b
    ensures CompareOptions(b, a) == CompareOptions(a, b).Reverse()
  {
    if a.Some? && b.Some? { StringsOrdered(a.value, b.value); }
  }

  lemma OptionsTransitive(a: Option<string>, b: Option<string>, c: Option<string>)
    requires CompareOptions(a, b) != Greater && CompareOptions(b, c) != Greater
    ensures CompareOptions(a, c) != Greater
    ensures CompareOptions(a, c) == Equal <==> a == b == c
  {
    if a.Some? && b.Some? && c.Some? { StringsTransitive(a.value, b.value, c.value); }
    OptionsOrdered(a, b);
    OptionsOrdered(b, c);
    OptionsOrdered(a, c);
  }

  lemma NamesTransitive(a: OutputName, b: OutputName, c: OutputName)
    requires Compare(a, b) == Less && Compare(b, c) == Less
    ensures Compare(a, c) == Less
  {
    NamesOrdered(a, c);
    NamesOrdered(a, b);
    NamesOrdered(b, c);
    if a.IsUnnamed() == b.IsUnnamed() == c.IsUnnamed() {
      if a.IsUnnamed() {
        StringsTransitive(a.connector, b.connector, c.connector);
      } else {
        OptionsTransitive(a.make, b.make, c.make);
        if a.make == b.make == c.make {
          OptionsTransitive(a.model, b.model, c.model);
          if a.model == b.model == c.model {
            OptionsTransitive(a.serial, b.serial, c.serial);
            if a.serial == b.serial == c.serial {
              StringsTransitive(a.connector, b.connector, c.connector);
            }
          }
        }
      }
    }
  }
}
