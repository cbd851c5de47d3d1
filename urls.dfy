/** The request URLs of the meteo.pl client: the model/grid prefix, the
    grid-cell lookup, the per-field catalog and the forecast request. */
module Urls {
  import opened Decimal

  const BaseUrl: string := "https://api.meteo.pl/api/v1/model/"

  /** The prefix every request for one model and grid starts with. */
  function MainUrl(model: string, grid: string): string
  {
    BaseUrl + model + "/grid/" + grid + "/"
  }

  /** The grid-cell lookup for a latitude and longitude, written as the
      client writes them. */
  function LatLonUrl(model: string, grid: string, latitude: string, longitude: string): string
  {
    MainUrl(model, grid) + "latlon2rowcol/" + latitude + "%2C" + longitude + "/"
  }

  /** The list of fields at a grid cell: the row `y` before the column `x`. */
  function FieldsUrl(model: string, grid: string, x: int, y: int): string
  {
    MainUrl(model, grid) + "coordinates/" + IntToString(y) + "%2C" + IntToString(x) + "/field/"
  }

  /** One field at one level below the list of fields. */
  function FieldUrl(fields: string, name: string, level: int): string
  {
    fields + name + "/level/" + IntToString(level) + "/"
  }

  /** The catalog of forecast runs for a field. */
  function DateUrl(field: string): string
  {
    field + "date/"
  }

  /** The forecast for a field from the run at `date`. */
  function ForecastUrl(field: string, date: string): string
  {
    field + "date/" + date + "/forecast/"
  }

  /** Each request extends the one before it: base, main, field list, field, catalog, forecast. */
  lemma Prefixes(model: string, grid: string, x: int, y: int, name: string, level: int, date: string)
    ensures var fields := FieldsUrl(model, grid, x, y);
            var field := FieldUrl(fields, name, level);
            && BaseUrl <= MainUrl(model, grid)
            && MainUrl(model, grid) <= fields
            && fields <= field
            && DateUrl(field) <= ForecastUrl(field, date)
            && ForecastUrl(field, date) == DateUrl(field) + date + "/forecast/"
  {
    var fields := FieldsUrl(model, grid, x, y);
    var field := FieldUrl(fields, name, level);
    MainExtendsBase(model, grid);
    FieldsExtendMain(model, grid, x, y);
    FieldExtendsFields(fields, name, level);
    ForecastExtendsDate(field, date);
  }

  lemma MainExtendsBase(model: string, grid: string)
    ensures BaseUrl <= MainUrl(model, grid)
  {
    PrefixOfConcat(BaseUrl, model + "/grid/" + grid + "/");
    assert MainUrl(model, grid) == BaseUrl + (model + "/grid/" + grid + "/");
  }

  lemma FieldsExtendMain(model: string, grid: string, x: int, y: int)
    ensures MainUrl(model, grid) <= FieldsUrl(model, grid, x, y)
  {
    var main := MainUrl(model, grid);
    PrefixOfConcat(main, "coordinates/" + IntToString(y) + "%2C" + IntToString(x) + "/field/");
    assert FieldsUrl(model, grid, x, y) == main + ("coordinates/" + IntToString(y) + "%2C" + IntToString(x) + "/field/");
  }

  lemma FieldExtendsFields(fields: string, name: string, level: int)
    ensures fields <= FieldUrl(fields, name, level)
  {
    PrefixOfConcat(fields, name + "/level/" + IntToString(level) + "/");
    assert FieldUrl(fields, name, level) == fields + (name + "/level/" + IntToString(level) + "/");
  }

  lemma ForecastExtendsDate(field: string, date: string)
    ensures DateUrl(field) <= ForecastUrl(field, date)
    ensures ForecastUrl(field, date) == DateUrl(field) + date + "/forecast/"
  {
    assert ForecastUrl(field, date) == DateUrl(field) + (date + "/forecast/");
    PrefixOfConcat(DateUrl(field), date + "/forecast/");
  }

  lemma PrefixOfConcat<T>(a: seq<T>, b: seq<T>)
    ensures a <= a + b
  {
    assert (a + b)[..|a|] == a;
  }

  lemma SeparatorAt<T>(a: seq<T>, b: seq<T>, c: T)
    ensures (a + [c] + b)[|a|] == c
  {
  }

  /** Splitting at the first occurrence of a separator absent from both heads. */
  lemma SplitAt<T>(a1: seq<T>, b1: seq<T>, a2: seq<T>, b2: seq<T>, c: T)
    requires c !in a1 && c !in a2
    requires a1 + [c] + b1 == a2 + [c] + b2
    ensures a1 == a2 && b1 == b2
  {
    var s := a1 + [c] + b1;
    if |a1| < |a2| {
      SeparatorAt(a1, b1, c);
      assert false;
    } else if |a2| < |a1| {
      SeparatorAt(a2, b2, c);
      assert false;
    }
    assert a1 == s[..|a1|] == a2;
    assert b1 == s[|a1| + 1..] == b2;
  }

  /** Cancelling a common prefix and a common suffix. */
  lemma Cancel<T>(p: seq<T>, a: seq<T>, b: seq<T>, q: seq<T>)
    requires p + a + q == p + b + q
    ensures a == b
  {
    var s := p + a + q;
    assert |a| == |b|;
    assert a == s[|p|..|p| + |a|];
    assert b == (p + b + q)[|p|..|p| + |b|];
  }

  /** The coordinate segments of two field-list URLs with the same prefix
      agree when the URLs do, since neither row text contains a '%'. */
  lemma CoordinatesAgree(p: string, row1: string, col1: string, row2: string, col2: string)
    requires '%' !in row1 && '%' !in row2
    requires p + row1 + "%2C" + col1 + "/field/" == p + row2 + "%2C" + col2 + "/field/"
    ensures row1 == row2 && col1 == col2
  {
    var tail1 := "2C" + col1 + "/field/";
    var tail2 := "2C" + col2 + "/field/";
    assert p + row1 + "%2C" + col1 + "/field/" == p + (row1 + ['%'] + tail1) + [];
    assert p + row2 + "%2C" + col2 + "/field/" == p + (row2 + ['%'] + tail2) + [];
    Cancel(p, row1 + ['%'] + tail1, row2 + ['%'] + tail2, []);
    SplitAt(row1, tail1, row2, tail2, '%');
    Cancel("2C", col1, col2, "/field/");
  }

  /** Two grid cells of the same model and grid have the same field-list URL
      exactly when they are the same cell. */
  lemma FieldsUrlInjective(model: string, grid: string, x1: int, y1: int, x2: int, y2: int)
    ensures FieldsUrl(model, grid, x1, y1) == FieldsUrl(model, grid, x2, y2) <==> x1 == x2 && y1 == y2
  {
    if FieldsUrl(model, grid, x1, y1) == FieldsUrl(model, grid, x2, y2) {
      CoordinatesAgree(MainUrl(model, grid) + "coordinates/", IntToString(y1), IntToString(x1), IntToString(y2), IntToString(x2));
      IntToStringInjective(y1, y2);
      IntToStringInjective(x1, x2);
    }
  }

  lemma CellTexts()
    ensures IntToString(100) == "100" && IntToString(200) == "200"
  {
    assert NatToString(10) == "10" && NatToString(20) == "20";
  }

  /** The cell lookup for latitude 52.0 and longitude 21.0, as Python writes
      those floats. */
  lemma LatLonUrlExample(model: string, grid: string)
    ensures LatLonUrl(model, grid, "52.0", "21.0") == MainUrl(model, grid) + "latlon2rowcol/52.0%2C21.0/"
  {
    assert "latlon2rowcol/" + "52.0" + "%2C" + "21.0" + "/" == "latlon2rowcol/52.0%2C21.0/";
  }

  /** The field list of the cell in column 100, row 200 puts the row first. */
  lemma FieldsUrlExample(model: string, grid: string)
    ensures FieldsUrl(model, grid, 100, 200) == MainUrl(model, grid) + "coordinates/200%2C100/field/"
  {
    CellTexts();
    assert "coordinates/" + "200" + "%2C" + "100" + "/field/" == "coordinates/200%2C100/field/";
  }
}
