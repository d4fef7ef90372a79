/** The command envelope. Message channels cannot carry exceptions, so every
    command answer is `{success: true, data}` or `{success: false, error}`. */
module Bridge {
  import opened Js

  datatype Envelope<+T> = Succeeded(data: T) | Failed(error: string)

  /** `.then(r => ({success: true, data: r})).catch(e => ({success: false, error: e.message}))` */
  function Reify<T>(r: Result<T>): Envelope<T> {
    match r
    case Ok(v) => Succeeded(v)
    case Err(m) => Failed(m)
  }

  /** Reads an envelope back as the settled promise it reports. */
  function Reflect<T>(e: Envelope<T>): Result<T> {
    match e
    case Succeeded(v) => Ok(v)
    case Failed(m) => Err(m)
  }

  /** Reifying loses nothing: the envelope reports exactly the outcome. */
  lemma ReifyReflect<T>(r: Result<T>, e: Envelope<T>)
    ensures Reflect(Reify(r)) == r
    ensures Reify(Reflect(e)) == e
  {
  }
}
