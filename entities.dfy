/** The single record type of the service (internal/entities/example/v1). */
module Entities {

  /** One `Example` record. The two `time.Time` fields are modelled as whole
      seconds since the Unix epoch. */
  datatype Example = Example(id: string, description: string, createdAt: int, updatedAt: int)
}
