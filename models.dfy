/**
 * The device record of the inventory (models/device.go, and the identical
 * struct at the top of main.go).
 */
module Models {

  /**
   * A float64 price. The model never computes with prices: it keeps the
   * 64-bit IEEE-754 pattern and only compares it for equality.
   */
  datatype Price = Price(bits: bv64)

  datatype Device = Device(
    id: int,
    deviceName: string,
    deviceType: string,
    brand: string,
    model: string,
    os: string,
    osVersion: string,
    purchaseDate: string,
    warrantyEnd: string,
    status: string,
    price: Price)
}
