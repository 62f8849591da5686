/**
  test/with_json.py `update_structure_with_text` (test/with_json.py:13-23):
  an in-place pass over a structure loaded from JSON that, for each stripped
  line of the text starting with "Глава", reassigns the top-level entry of
  that name and every second-level entry of that name to the value it
  already has.  The structure is an object whose fields the function
  overwrites in place, so it is a class here.
*/
module WithJson {
  import opened Text

  /** A JSON value as `json.load` returns it (numbers are integers here). */
  datatype Json =
    | JNull
    | JBool(b: bool)
    | JNumber(n: int)
    | JString(s: string)
    | JArray(items: seq<Json>)
    | JObject(fields: map<string, Json>)

  /** The loaded structure: a top-level object whose values are objects. */
  class JsonStructure {
    var chapters: map<string, map<string, Json>>

    constructor(chapters: map<string, map<string, Json>>)
      ensures this.chapters == chapters
    {
      this.chapters := chapters;
    }
  }

  /** `dict.get(key, default)` */
  function Get<V>(m: map<string, V>, key: string, default: V): (v: V)
    ensures key in m ==> v == m[key]
    ensures key !in m ==> v == default
  {
    if key in m then m[key] else default
  }

  /** `line.startswith(prefix)`: case-sensitive. */
  predicate StartsWith(line: string, prefix: string) {
    prefix <= line
  }

  /**
    The inner loop (test/with_json.py:20-22): for every chapter whose object
    has a field named `line`, reassign that field to its own value.
  */
  method ReassignInChapters(structure: JsonStructure, line: string)
    modifies structure
    ensures structure.chapters == old(structure.chapters)
  {
    var pending := structure.chapters.Keys;
    while pending != {}
      invariant structure.chapters == old(structure.chapters)
      invariant pending <= structure.chapters.Keys
      decreases pending
    {
      var chapter :| chapter in pending;
      if line in structure.chapters[chapter] {
        var fields := structure.chapters[chapter];
        assert fields[line := Get(fields, line, JObject(map[]))] == fields;
        structure.chapters := structure.chapters[chapter := fields[line := Get(fields, line, JObject(map[]))]];
      }
      pending := pending - {chapter};
    }
  }

  /**
    test/with_json.py:13-23.  Every assignment writes back the value already
    stored under an existing key, so the structure comes back unchanged: no
    key is added at either level and no value changes.  The very object
    passed in is returned.
  */
  method UpdateStructureWithText(text: string, structure: JsonStructure) returns (r: JsonStructure)
    modifies structure
    ensures r == structure
    ensures structure.chapters == old(structure.chapters)
  {
    var lines := SplitLines(text);
    var i := 0;
    while i < |lines|
      invariant i <= |lines|
      invariant structure.chapters == old(structure.chapters)
      decreases |lines| - i
    {
      var line := Strip(lines[i]);
      if StartsWith(line, "Глава") && line in structure.chapters {
        structure.chapters := structure.chapters[line := Get(structure.chapters, line, map[])];
        ReassignInChapters(structure, line);
      }
      i := i + 1;
    }
    r := structure;
  }
}
