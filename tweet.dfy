/** The post shapes the feed handles: a tweet, its author, its images and its
    comments.  Optional TypeScript properties become `Option`s. */
module TweetTypes {
  import opened Wrappers

  datatype Image = Image(url: string)

  datatype Sender = Sender(username: string, nick: string, avatar: string)

  datatype Comment = Comment(content: string, sender: Sender)

  datatype Tweet = Tweet(
    key: Option<int>,
    sender: Sender,
    images: Option<seq<Image>>,
    content: Option<string>,
    comments: Option<seq<Comment>>)
}
