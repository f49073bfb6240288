/** The car listing that `getCars` builds, in src/CarMarket.js and in
    src/CarMarketSync.js alike. */
module Listing {
  import opened Text
  import opened Store

  /** ` - model : value : uuid` */
  function CarLine(c: CarRow): string
  {
    " - " + c.model + " : " + c.value + " : " + c.uuid
  }

  /** What `cars.forEach(car => result += "\n" + line)` appends to the header. */
  function CarLines(cars: seq<CarRow>): string
  {
    if cars == [] then "" else CarLines(cars[..|cars| - 1]) + "\n" + CarLine(cars[|cars| - 1])
  }

  /** The message for a user's cars: a header and one line per car, or the
      empty-list message. */
  function CarsMessage(cars: seq<CarRow>): string
  {
    if |cars| > 0 then "Cars founded:" + CarLines(cars) else "No cars founded."
  }

  /** The `forEach` of getCars: the header, then one line per car appended
      in query order. */
  method BuildListing(cars: seq<CarRow>) returns (result: string)
    ensures result == "Cars founded:" + CarLines(cars)
  {
    result := "Cars founded:";
    var i := 0;
    while i < |cars|
      invariant 0 <= i <= |cars|
      invariant result == "Cars founded:" + CarLines(cars[..i])
    {
      assert cars[..i + 1][..i] == cars[..i];
      result := result + "\n" + CarLine(cars[i]);
      i := i + 1;
    }
    assert cars[..i] == cars;
  }

  predicate OneLine(c: CarRow)
  {
    '\n' !in c.model && '\n' !in c.value && '\n' !in c.uuid
  }

  lemma CarLineIsOneLine(c: CarRow)
    requires OneLine(c)
    ensures '\n' !in CarLine(c)
  {
  }

  /** The per-car lines, in query order. */
  function Lines(cars: seq<CarRow>): (lines: seq<string>)
    ensures |lines| == |cars|
    ensures forall i :: 0 <= i < |cars| ==> lines[i] == CarLine(cars[i])
  {
    if cars == [] then [] else Lines(cars[..|cars| - 1]) + [CarLine(cars[|cars| - 1])]
  }

  /** When no field holds a line break, the listing reads back line by line:
      the header, then each car's line in query order. */
  lemma {:induction false} ListingLines(cars: seq<CarRow>)
    requires forall i :: 0 <= i < |cars| ==> OneLine(cars[i])
    ensures Split("Cars founded:" + CarLines(cars), '\n') == ["Cars founded:"] + Lines(cars)
    decreases |cars|
  {
    if cars == [] {
      assert "Cars founded:" + CarLines(cars) == "Cars founded:";
      SplitWithoutSeparator("Cars founded:", '\n');
    } else {
      var init := cars[..|cars| - 1];
      var last := cars[|cars| - 1];
      ListingLines(init);
      var line := CarLine(last);
      CarLineIsOneLine(last);
      var header := "Cars founded:" + CarLines(init);
      assert CarLines(cars) == CarLines(init) + "\n" + line;
      assert "Cars founded:" + CarLines(cars) == header + ['\n'] + line;
      SplitAppendLast(header, line, '\n');
    }
  }
}
