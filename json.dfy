/** Decoded JSON values, standing for what `encoding/json` leaves in an
    `interface{}`. Comparing two of them with `==` stands for `reflect.DeepEqual`;
    objects are maps, so the order in which their members were written is not
    part of the value. */
module Json {
  import opened Wrappers

  datatype Json =
    | JNull
    | JBool(b: bool)
    | JNumber(n: real)
    | JString(s: string)
    | JArray(items: seq<Json>)
    | JObject(members: map<string, Json>)

  /** What `json.Unmarshal` into a `map[string]interface{}` produces: the text
      `null` leaves the map nil, an object fills it. */
  datatype ObjectValue = NilMap | Members(members: map<string, Json>)

  /** `json.Unmarshal` into a `map[string]interface{}`: the decoded value, or the
      text of the error it returns. */
  type ObjectParser = string -> Result<ObjectValue, string>
}
