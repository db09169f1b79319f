/**
 * The Python values that appear in the dictionary form of an element and that
 * a cleaner may return. Only the shapes the element taxonomy produces are
 * distinguished; every other Python value a cleaner might return is `Other`.
 */
module Values {
  datatype Value =
    | Null                              // Python `None`
    | Bool(b: bool)
    | Int(i: int)
    | Str(s: string)
    | FloatList(xs: seq<real>)          // a list of floats (coordinates)
    | Dict(fields: map<string, Value>)  // a nested dictionary (metadata)
    | NoIdMarker                        // an instance of the `NoID` marker class
    | Other                             // any other Python object
}
