/** The gain tables of `gbcom_common/agc/agc.c`. */
module AgcTables {

  /** In 12 binary places. */
  const GAIN_ANALOG: seq<nat> := [
    4096, 4251, 4412, 4579, 4752, 4932, 5118, 5312, 5513, 5722, 5938, 6163, 6396, 6638, 6889, 7150, 7420, 7701,
    7992, 8295, 8609, 8934, 9273, 9623, 9987, 10365, 10758, 11165, 11587, 12025, 12480, 12953]

  /** In 10 binary places, by rows of 32. */
  const GAIN_ROW_0: seq<nat> := [
    1052, 1081, 1110, 1141, 1172, 1204, 1237, 1271, 1305, 1341, 1378, 1416, 1454, 1494, 1535, 1577, 1620, 1664,
    1710, 1757, 1805, 1854, 1905, 1957, 2010, 2065, 2122, 2180, 2239, 2301, 2364, 2428]

  const GAIN_ROW_1: seq<nat> := [
    2495, 2563, 2633, 2705, 2779, 2855, 2933, 3013, 3096, 3180, 3267, 3357, 3449, 3543, 3640, 3739, 3842, 3947,
    4055, 4166, 4280, 4397, 4517, 4640, 4767, 4898, 5032, 5169, 5311, 5456, 5605, 5758]

  const GAIN_ROW_2: seq<nat> := [
    5916, 6078, 6244, 6415, 6590, 6770, 6956, 7146, 7341, 7542, 7748, 7960, 8178, 8402, 8631, 8867, 9110, 9359,
    9615, 9878, 10148, 10426, 10711, 11004, 11305, 11614, 11932, 12258, 12593, 12938, 13292, 13655]

  const GAIN_ROW_3: seq<nat> := [
    14029, 14412, 14807, 15212, 15628, 16055, 16494, 16945, 17409, 17885, 18374, 18877, 19393, 19923, 20468,
    21028, 21603, 22194, 22801, 23425, 24065, 24724, 25400, 26095, 26808, 27541, 28295, 29069, 29864, 30681,
    31520, 32382]

  const GAIN_VIRTUAL: seq<nat> := GAIN_ROW_0 + GAIN_ROW_1 + GAIN_ROW_2 + GAIN_ROW_3

  /** A factor that never makes a sample larger. */
  type Suppression = n: nat | n <= 1024

  const SUPPRESSION_ROW_0: seq<Suppression> := [
    1024, 1006, 988, 970, 952, 935, 918, 902, 886, 870, 854, 839, 824, 809, 794, 780, 766, 752, 739, 726, 713,
    700, 687, 675, 663, 651, 639, 628, 616, 605, 594, 584]

  const SUPPRESSION_ROW_1: seq<Suppression> := [
    573, 563, 553, 543, 533, 524, 514, 505, 496, 487, 478, 470, 461, 453, 445, 437, 429, 421, 414, 406, 399,
    392, 385, 378, 371, 364, 358, 351, 345, 339, 333, 327]

  const SUPPRESSION_ROW_2: seq<Suppression> := [
    321, 315, 309, 304, 298, 293, 288, 283, 278, 273, 268, 263, 258, 254, 249, 244, 240, 236, 232, 227, 223,
    219, 215, 211, 208, 204, 200, 197, 193, 190, 186, 183]

  const SUPPRESSION_ROW_3: seq<Suppression> := [
    180, 176, 173, 170, 167, 164, 161, 158, 155, 153, 150, 147, 145, 142, 139, 137, 134, 132, 130, 127, 125,
    123, 121, 118, 116, 114, 112, 110, 108, 106, 104, 102]

  const SUPPRESSION_VIRTUAL: seq<Suppression> :=
    SUPPRESSION_ROW_0 + SUPPRESSION_ROW_1 + SUPPRESSION_ROW_2 + SUPPRESSION_ROW_3
}
