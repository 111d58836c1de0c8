/** How far building a structure from octets has got (structure_builder.h). */
module Builders {
  datatype Status = BuildFailed | Building | BuildFinished
}
