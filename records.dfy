/** The values that flow through the search page: what the remote service
    answers, the summaries shown in the grid, and the errors a failed lookup
    surfaces. */
module Records {

  datatype Option<T> = None | Some(value: T)

  /** The answer of one remote lookup: the decoded body, or the reason the
      request failed (a non-ok HTTP status or a network error). */
  datatype Response<D> = Found(data: D) | Failed(reason: string)

  /** The fields of a pokemon record that the search page reads; `artwork` is
      the official-artwork front image, which the service may leave null. */
  datatype PokemonData = PokemonData(name: string, id: int, artwork: Option<string>)

  /** One entry of the displayed result grid. */
  datatype Summary = Summary(name: string, id: int, img: Option<string>)

  /** One member slot of a type record: the name of a pokemon of that type. */
  datatype TypeSlot = TypeSlot(pokemonName: string)

  /** The part of a type record that the search page reads: its member slots. */
  datatype TypeData = TypeData(pokemon: seq<TypeSlot>)

  /** The error a failed page or type lookup rejects with; it names the key
      whose lookup failed and carries the underlying reason. */
  datatype FetchError =
    | PokemonFetchFailed(name: string, reason: string)
    | TypeFetchFailed(typeName: string, reason: string)

  datatype Result<T> = Ok(value: T) | Err(error: FetchError)
}
