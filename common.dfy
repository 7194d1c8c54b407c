/** Small shared vocabulary: an optional value, used for JavaScript's
    `null` / `undefined` (an absent storage entry, an absent shortcut flag,
    no current notification). */
module Common {

  datatype Option<+T> = None | Some(value: T)

}
