/** The doctor directory shared by the server and the booking form. */
module Directory {

  /** A doctor as the directory lists it; `diseases` is empty when the record has none. */
  datatype Doctor = Doctor(name: string, specialty: string, image: string, diseases: seq<string>)
}
