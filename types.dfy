/** Value types shared by the whole model (src/types/index.ts). */
module Types {

  /** An absent or present value: JavaScript's `null`/`undefined` versus a value. */
  datatype Option<+T> = None | Some(value: T)

  /** The outcome of a remote call: its data, or the error message it reported. */
  datatype Result<+T> = Ok(value: T) | Err(message: string)

  /**
   * A song row of the library. `artist`, `coverArtUrl` and `position` are optional in
   * the source; `position` is only set for songs read through a playlist.
   */
  datatype Song = Song(
    id: string,
    title: string,
    artist: Option<string>,
    fileUrl: string,
    coverArtUrl: Option<string>,
    position: Option<int>)
}
