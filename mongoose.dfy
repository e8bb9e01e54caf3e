/** The parts of Mongoose's schema semantics the models rely on: object ids,
    schema path options, and the `required` validator on strings. */
module Mongoose {

  /** A document id. Ids are handed out from a counter; the model compares them
      by plain equality where the source compares `toString()` renderings. */
  type ObjectId = nat

  /** The options object declared for one schema path, e.g. `{required: true}`.
      Keys are kept as written, so a misspelt option is just an unknown key. */
  type PathOptions = map<string, bool>

  /** A schema: path name to declared options. */
  type Schema = map<string, PathOptions>

  /** An option Mongoose acts upon only when it is spelt exactly and set. */
  predicate Declares(options: PathOptions, option: string) {
    option in options && options[option]
  }

  /** The paths whose options set `option`: `"unique"` gives the paths Mongoose
      builds a unique index for, `"required"` those its validator requires. */
  function PathsDeclaring(schema: Schema, option: string): (ps: set<string>)
    ensures forall p :: p in ps <==> p in schema && Declares(schema[p], option)
  {
    set p | p in schema && Declares(schema[p], option)
  }

  /** Mongoose's `required` check on a string path: missing and `""` both fail. */
  predicate RequiredStringPresent(v: string) {
    v != ""
  }
}
