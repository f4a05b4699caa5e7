/** The NFT record that the market pages pass around. */
module Nfts {

  /** One market item as the contract wrapper resolves it. `price` is an
      integer amount (for example wei); the display fields that no core
      logic reads (description, image) are left out. */
  datatype Nft = Nft(tokenId: int, name: string, seller: string, owner: string, price: int)
}
