/** What all the models store: sectors, and results that may be missing. */
module Sectors {

  /** The contents of a sector. */
  type Sector = int

  /** A sector of erased flash, as it reads. */
  const ALL_ONES: Sector := -1

  datatype Option<T> = None | Some(value: T)
}
